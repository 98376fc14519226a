# Documentator core, modelled in Dafny

Documentator is a Unity editor tool. It reads the C# files of one or more input
folders. It turns the XML doc comments of their classes, interfaces, structs,
methods, properties and fields into Markdown pages: one page per top-level
type and, unless classes are inlined, one per nested type. This project
models its core:

- **The document tree** (`DocumentationProject`, `NamespaceInfo`,
  `DocumentationItem`, `AttributeInfo`, module `DocumentModel`). Items are
  objects that refer to each other, as members and as parents. They live in a
  `Heap` class whose `items` sequence is indexed by an `ItemRef`, which stands
  for an object reference. `FullName` is the recursive getter over the parent
  chain. A value view (`Tree`, `TreeOf`, `ProjectTrees`) lets the imperative
  code be proved against pure specifications.
- **The parser** (`DocumentationParser.cs`, modules `CSharpSyntax`,
  `CommentCleaning`, `DocumentationParser`, `ParseProperties`). Roslyn's
  syntax tree is an input datatype, `MemberSyntax`. The walk keeps its
  explicit `ClassStack` and appends to members, items and namespaces in place.
  Each parsing method is proved against the pure specification `ProjectSpec` /
  `FileMembers` / `TypeTree`. The properties are proved about those
  functions: comment cleaning, undocumented declarations and their members
  dropped, what each container collects, namespace merging within a folder,
  one item per field variable, and attribute maps where the last value wins.
- **The kind plugin** (`KindAttributePlugin.cs`, module `KindPlugin`). The
  in-place recursive rewrite of `Kind` is proved equal to
  `Rewritten(old heap, every reachable item, replacements)`. Lemmas show that
  the first matching rule wins, that rules never chain, that only `Kind`
  changes, and that on the tree view the rewrite is `Relabel`.
- **The Markdown renderer** (`MarkdownGenerator.cs`):
  - `MarkdownFormat` holds the pure string helpers.
  - `Sorting` holds a stable sort by (kind index, name).
  - `Xml` holds the XML node datatype.
  - `MarkdownXml` holds the XML-to-Markdown formatter.
  - `MarkdownPages` holds the page assembly, the table of contents and the
    list of files written.
  - `Output` holds the `StringBuilder` and a `FileSystem` that is a map from
    path to text.

  The StringBuilder-based methods are proved equal to pure functions of the
  page (`PageText`, `Toc`, `ElementMarkdown`, `ListText`, ...). What the
  source promises is proved about those functions.
- **The generation driver** (the non-GUI part of `DocumentationGenerator.cs`,
  module `Generator`). This covers:
  - the settings fields;
  - the kind-table edits behind the add, remove, up and down buttons;
  - the list normalisation of `LoadConfig`;
  - `GenerateDocumentation`: parse the enabled folders, run the enabled
    plugins in order, render.

Where this model departs from a plain reading of the behaviour, it follows
the code:
- An item whose kind is missing from `kindOrder` has index -1, so it sorts
  before every configured kind.
- Namespaces from different input folders are appended, not merged.
- An undocumented type hides its documented members.
- `FormatFileName` drops words that start in lower case.
- At nesting depth 2 and below, the table-of-contents link does not name the
  file that is written.

Two places depart from the code on purpose, and both are under "Findings".
The pages are rendered with the corrected `exception`/`seealso` sibling
lookup. Namespace folders are joined under the output folder, whereas
.NET's `Path.Combine` drops the output folder once the package name is rooted.

`NamespaceInfo` has an explicit `directory` field. The renderer reads that
property, but `DocumentationProject.cs` never declares it. The parser leaves
it empty.

## Model

| member | source | states |
|---|---|---|
| Text.TrimFacts | Documentator/Packages/documentator/Scripts/DocumentationParser.cs:358 | `Trim` removes exactly the leading and trailing white space: the result is a slice of the input whose ends are not white space, and everything cut off is white space |
| Text.IndexOf | Documentator/Packages/documentator/Scripts/MarkdownGenerator.cs:232 | `List.IndexOf`: -1 exactly when the element is absent, otherwise the position of its first occurrence |
| Text.NatToStringValue | Documentator/Packages/documentator/Scripts/MarkdownGenerator.cs:320 | the decimal text of a list index has only digits and denotes that number |
| Text.OrdinalTotal | Documentator/Packages/documentator/Scripts/MarkdownGenerator.cs:363 | the ordinal string order used for `ThenBy(Name)` is total |
| Text.OrdinalTransitive | Documentator/Packages/documentator/Scripts/MarkdownGenerator.cs:363 | the ordinal string order is transitive |
| Text.OrdinalAntisymmetric | Documentator/Packages/documentator/Scripts/MarkdownGenerator.cs:363 | two strings ordered both ways are equal |
| CSharpSyntax.DocCommentText | Documentator/Packages/documentator/Scripts/DocumentationParser.cs:85-88 | the text of the first documentation-comment trivia of a declaration; "" when there is none, so ordinary `//` comments are never doc comments |
| Xml.Attribute | Documentator/Packages/documentator/Scripts/MarkdownGenerator.cs:173 | `element.Attribute(name)?.Value`: the value of the first attribute with that name, None when there is none |
| Xml.Elements | Documentator/Packages/documentator/Scripts/MarkdownGenerator.cs:144 | `Elements()`: the element children in order; text is skipped |
| Xml.ElementsNamed | Documentator/Packages/documentator/Scripts/MarkdownGenerator.cs:307 | `Elements(name)`: exactly the element children with that name, in order |
| Xml.Element | Documentator/Packages/documentator/Scripts/MarkdownGenerator.cs:309-310 | `Element(name)`: the first element child with that name, None when there is none |
| Xml.ElementIsFirst | Documentator/Packages/documentator/Scripts/MarkdownGenerator.cs:309-310 | `Element(name)` is the head of `Elements(name)` |
| Xml.IgnoresText | Documentator/Packages/documentator/Scripts/MarkdownGenerator.cs:144 | text nodes between elements do not change `Elements()` |
| Output.StringBuilder.Append | Documentator/Packages/documentator/Scripts/MarkdownGenerator.cs:249 | appends the text and changes nothing else |
| Output.StringBuilder.AppendLine | Documentator/Packages/documentator/Scripts/MarkdownGenerator.cs:163-164 | appends the text and one line break |
| Output.FileSystem.WriteAllText | Documentator/Packages/documentator/Scripts/MarkdownGenerator.cs:113 | the file at the path gets the contents; every other file is unchanged |
| Output.ApplyWritesAppend | Documentator/Packages/documentator/Scripts/MarkdownGenerator.cs:41-50 | writing two lists of files one after the other is writing their concatenation |
| Output.ApplyWritesLast | Documentator/Packages/documentator/Scripts/MarkdownGenerator.cs:113 | after a list of writes, a path holds the contents of the last write to it |
| CommentCleaning.SplitLines | Documentator/Packages/documentator/Scripts/DocumentationParser.cs:353 | splitting on "\r\n", "\r" and "\n" gives at least one line and no line holds a break |
| CommentCleaning.NonBlank | Documentator/Packages/documentator/Scripts/DocumentationParser.cs:362 | the filter keeps no blank line |
| CommentCleaning.CleanXmlComment | Documentator/Packages/documentator/Scripts/DocumentationParser.cs:348-363 | the line loop computes `CleanedComment`: every line trimmed, stripped of its leading '/' run and trimmed again, then the non-blank lines joined by a line break |
| CommentCleaning.CleanedCommentEmpty | Documentator/Packages/documentator/Scripts/DocumentationParser.cs:350-351 | the cleaned comment is "" exactly when every line cleans to "" (in particular for a whitespace-only comment) |
| CommentCleaning.CleanedCommentLines | Documentator/Packages/documentator/Scripts/DocumentationParser.cs:353-362 | a non-empty cleaned comment consists of the non-blank cleaned lines in their original order, each non-empty and without white space at either end |
| CommentCleaning.SplitLinesOfBlank | Documentator/Packages/documentator/Scripts/DocumentationParser.cs:350-351 | every line of a whitespace-only comment is blank |
| CommentCleaning.CleanLineTrimmed | Documentator/Packages/documentator/Scripts/DocumentationParser.cs:358 | a cleaned line is blank only when it is empty, and otherwise neither starts nor ends with white space |
| CommentCleaning.SplitJoin | Documentator/Packages/documentator/Scripts/DocumentationParser.cs:353-362 | splitting lines that were joined by line breaks gives them back |
| DocumentModel.Heap.NewItem | Documentator/Packages/documentator/Scripts/DocumentationProject.cs:17-38 | a new item has the given name, kind and comment, empty attributes, members and base types, and no parent; it is allocated at a fresh reference and no existing item changes |
| DocumentModel.Heap.AddAttributes | Documentator/Packages/documentator/Scripts/DocumentationParser.cs:332 | only the item's attribute list grows, by the given attributes |
| DocumentModel.Heap.AddMember | Documentator/Packages/documentator/Scripts/DocumentationParser.cs:106 | only the container's member list grows, by one reference at its end |
| DocumentModel.Heap.SetParent | Documentator/Packages/documentator/Scripts/DocumentationParser.cs:107 | only the item's parent changes |
| DocumentModel.Heap.AddBaseType | Documentator/Packages/documentator/Scripts/DocumentationParser.cs:100 | only the item's base-type list grows, by one name |
| DocumentModel.Heap.SetKind | Documentator/Packages/documentator/Scripts/Plugins/KindAttributePlugin.cs:48 | only the item's kind changes |
| DocumentModel.FullNameIsChainJoin | Documentator/Packages/documentator/Scripts/DocumentationProject.cs:26-35 | the full name is the names along the parent chain joined by ".": from the first ancestor whose parent is missing or of kind "namespace" down to the item. So it is the bare name when the parent is missing or a namespace, and the parent's full name, ".", and the name otherwise |
| DocumentModel.NameChainExists | Documentator/Packages/documentator/Scripts/DocumentationProject.cs:26-35 | every item has such a chain, since parents come before their children |
| DocumentModel.FullNameEndsWithName | Documentator/Packages/documentator/Scripts/DocumentationProject.cs:33 | the full name always ends with the item's own name |
| DocumentModel.FullNameIgnoresOwnKind | Documentator/Packages/documentator/Scripts/DocumentationProject.cs:30 | changing the item's own kind (as the plugin does) leaves its full name unchanged |
| DocumentModel.FullNameFrame | Documentator/Packages/documentator/Scripts/DocumentationProject.cs:26-35 | the full name depends only on the item's name and parent and on its ancestors |
| DocumentModel.ProjectTrees | Documentator/Packages/documentator/Scripts/DocumentationProject.cs:5-15 | the project as values: one entry per namespace, with its package, name, directory and one tree per top-level item |
| DocumentModel.ForestAttach | Documentator/Packages/documentator/Scripts/DocumentationParser.cs:104-108 | appending a new item to a container's members and setting its parent to the container keeps the forest invariant: members come after their container, parents before their children, each member's parent is its container, and no member is listed twice |
| DocumentModel.AttachThenGrow | Documentator/Packages/documentator/Scripts/DocumentationParser.cs:104-144 | a new member, attached and then filled, appears in the container's tree as one more member tree |
| DocumentModel.GrownTrans | Documentator/Packages/documentator/Scripts/DocumentationParser.cs:116-142 | growing a container's members twice appends both sets of member trees in order |
| DocumentModel.SiblingsDisjoint | Documentator/Packages/documentator/Scripts/Plugins/KindAttributePlugin.cs:42-55 | the subtrees of distinct siblings share no item, so the recursive walk visits each item once |
| DocumentModel.ReachSameShape | Documentator/Packages/documentator/Scripts/Plugins/KindAttributePlugin.cs:40-56 | the items reachable from an item depend only on members and parents, not on kinds |
| DocumentationParser.Put | Documentator/Packages/documentator/Scripts/DocumentationParser.cs:315 | the dictionary indexer overwrites a present key in place or adds it at the end |
| DocumentationParser.PutLookup | Documentator/Packages/documentator/Scripts/DocumentationParser.cs:315 | after `dict[key] = value`, looking up key gives value and every other key is unchanged |
| DocumentationParser.ParametersLookup | Documentator/Packages/documentator/Scripts/DocumentationParser.cs:313-316 | looking up a key in an attribute's parameters gives the value of the LAST argument with that key; positional arguments have key "" |
| DocumentationParser.ParametersDistinct | Documentator/Packages/documentator/Scripts/DocumentationParser.cs:313-316 | no key appears twice in an attribute's parameters |
| DocumentationParser.ListAttributes | Documentator/Packages/documentator/Scripts/DocumentationParser.cs:308-319 | one `AttributeInfo` per attribute of a list |
| DocumentationParser.ParseAttributes | Documentator/Packages/documentator/Scripts/DocumentationParser.cs:303-322 | the nested loops compute `AttributesOf`: one `AttributeInfo` per attribute, across all lists, in source order |
| DocumentationParser.AttributesOfAppend | Documentator/Packages/documentator/Scripts/DocumentationParser.cs:306-319 | one more attribute list adds exactly one info per attribute, at the end, in order |
| DocumentationParser.ClassStack.Push | Documentator/Packages/documentator/Scripts/DocumentationParser.cs:114 | the item goes on top of the stack |
| DocumentationParser.ClassStack.Pop | Documentator/Packages/documentator/Scripts/DocumentationParser.cs:144 | the top is removed and returned |
| DocumentationParser.ParseProject | Documentator/Packages/documentator/Scripts/DocumentationParser.cs:14-30 | the new project, viewed as values, is `ProjectSpec(files, packageName)`: every file's declarations in order, with the package name stamped on every namespace. The heap stays a forest, older items are untouched and all top-level items are new |
| DocumentationParser.ParseFile | Documentator/Packages/documentator/Scripts/DocumentationParser.cs:32-61 | the project grows as `FileMembers` says: namespace declarations set the current namespace and are parsed, top-level types go to the current namespace, and anything else is ignored |
| DocumentationParser.ParseNamespaceMembers | Documentator/Packages/documentator/Scripts/DocumentationParser.cs:63-80 | each class, interface or struct of the namespace body is parsed into that namespace, in order; the stack is empty before and after |
| DocumentationParser.ParseTypeDeclaration | Documentator/Packages/documentator/Scripts/DocumentationParser.cs:82-92 | the class stack is as before. An undocumented type changes nothing. A documented one becomes `TypeTree(d)`: with a non-empty stack it is appended to the members of the top of the stack, otherwise it goes to its namespace via AddToProject |
| DocumentationParser.ParseDocumentedType | Documentator/Packages/documentator/Scripts/DocumentationParser.cs:94-144 | a documented type becomes exactly its `TypeTree`: one more member of the enclosing type, or one more item of its namespace; the stack is restored |
| DocumentationParser.CreateTypeItem | Documentator/Packages/documentator/Scripts/DocumentationParser.cs:94-112 | the type item with its name, kind, comment, attributes and base types; it is attached to the top of the stack with that item as parent, or added to the namespace with no parent |
| DocumentationParser.ParseTypeMembers | Documentator/Packages/documentator/Scripts/DocumentationParser.cs:116-142 | the container's members grow by exactly `MemberTrees(keyword, members)` and the stack and namespaces are unchanged |
| DocumentationParser.ParseMember | Documentator/Packages/documentator/Scripts/DocumentationParser.cs:116-142 | one member adds `MemberContribution`: a class collects methods, properties, fields and nested types; a struct methods, properties and fields; an interface methods and properties |
| DocumentationParser.ParseMethodDeclaration | Documentator/Packages/documentator/Scripts/DocumentationParser.cs:249-264 | a documented method becomes one "method" member with the container as parent; an undocumented one adds nothing |
| DocumentationParser.ParsePropertyDeclaration | Documentator/Packages/documentator/Scripts/DocumentationParser.cs:266-281 | the same for a "property" member |
| DocumentationParser.ParseFieldDeclaration | Documentator/Packages/documentator/Scripts/DocumentationParser.cs:283-301 | a documented field declaration becomes one "field" member per variable, in order, all with the declaration's comment and attributes; an undocumented one adds none |
| DocumentationParser.AttachMember | Documentator/Packages/documentator/Scripts/DocumentationParser.cs:261-263 | the new item is appended to the container's members with the container as parent |
| DocumentationParser.CreateItem | Documentator/Packages/documentator/Scripts/DocumentationParser.cs:324-334 | a fresh item with the name, kind, comment and attributes, no members, no parent |
| DocumentationParser.AddToProject | Documentator/Packages/documentator/Scripts/DocumentationParser.cs:336-346 | the item is appended to the first namespace of that name, or to a new namespace added at the end |
| DocumentationParser.AddItemTrees | Documentator/Packages/documentator/Scripts/DocumentationParser.cs:336-346 | AddToProject on references matches AddToProject on the value view |
| DocumentationParser.AddItemRoots | Documentator/Packages/documentator/Scripts/DocumentationParser.cs:336-346 | after AddToProject every top-level item is still allocated, parentless and listed once |
| ParseProperties.AddToNamespacesNamed | Documentator/Packages/documentator/Scripts/DocumentationParser.cs:336-346 | namespace names stay unique; the item is appended to its namespace's items and no other namespace changes |
| ParseProperties.NamespaceMembersNamed | Documentator/Packages/documentator/Scripts/DocumentationParser.cs:63-80 | a namespace body appends exactly its documented types, in order, to that namespace and to no other |
| ParseProperties.ProjectSpecDistinct | Documentator/Packages/documentator/Scripts/DocumentationParser.cs:14-30 | within one parsed folder no two namespaces share a name, and every namespace carries the folder's package name |
| ParseProperties.TypeTreeWellNested | Documentator/Packages/documentator/Scripts/DocumentationParser.cs:82-247 | a documented type has the kind of its keyword; each item below it has a non-empty comment and a kind its container collects |
| ParseProperties.MemberTreesWellNested | Documentator/Packages/documentator/Scripts/DocumentationParser.cs:181-191 | the members a type collects are only of the kinds it allows (an interface only methods and properties, a struct no nested types) |
| ParseProperties.MemberContributionWellNested | Documentator/Packages/documentator/Scripts/DocumentationParser.cs:230-244 | the same for one member declaration |
| ParseProperties.ProjectSpecWellNested | Documentator/Packages/documentator/Scripts/DocumentationParser.cs:41-80 | every top-level item of a parsed project is a documented class, interface or struct, well nested |
| ParseProperties.UndocumentedTypeHidesMembers | Documentator/Packages/documentator/Scripts/DocumentationParser.cs:90-92 | a type whose cleaned comment is empty adds nothing, whatever members it has |
| KindPlugin.NewKindFirstMatch | Documentator/Packages/documentator/Scripts/Plugins/KindAttributePlugin.cs:44-51 | the new kind is the new kind of the first replacement whose old kind and attribute name both match; with no match the kind stays |
| KindPlugin.NewKindChanged | Documentator/Packages/documentator/Scripts/Plugins/KindAttributePlugin.cs:46-48 | a changed kind comes from the first matching replacement |
| KindPlugin.NoChaining | Documentator/Packages/documentator/Scripts/Plugins/KindAttributePlugin.cs:44-51 | for every item and rule list: one look gives the first matching rule's new kind, even when that new kind is matched by another rule; a second look would give that other rule's new kind, so rules are applied once and not to a fixpoint |
| KindPlugin.NoChainingExample | Documentator/Packages/documentator/Scripts/Plugins/KindAttributePlugin.cs:44-51 | "class" with [Component] under the rules class→component and component→widget becomes "component", not "widget" |
| KindPlugin.RewrittenOnlyKinds | Documentator/Packages/documentator/Scripts/Plugins/KindAttributePlugin.cs:40-56 | the rewrite changes kinds only: names, comments, attributes, members, parents and base types stay, and the forest keeps its shape |
| KindPlugin.RewrittenCompose | Documentator/Packages/documentator/Scripts/Plugins/KindAttributePlugin.cs:42-55 | rewriting disjoint sets one after the other is rewriting their union; an item's result does not depend on whether its parent was reclassified first |
| KindPlugin.RewrittenEmpty | Documentator/Packages/documentator/Scripts/Plugins/KindAttributePlugin.cs:18 | with no replacements nothing changes |
| KindPlugin.NotBelowItself | Documentator/Packages/documentator/Scripts/Plugins/KindAttributePlugin.cs:54 | an item is not among its own descendants, so the recursion visits it once |
| KindPlugin.KindAttributePlugin.constructor | Documentator/Packages/documentator/Scripts/Plugins/KindAttributePlugin.cs:18-19 | no replacements, not dirty |
| KindPlugin.KindAttributePlugin.LoadSettings | Documentator/Packages/documentator/Scripts/Plugins/KindAttributePlugin.cs:26-30 | the loaded list, or the empty list when the settings hold none; the dirty flag is untouched |
| KindPlugin.KindAttributePlugin.ResetDirtyFlag | Documentator/Packages/documentator/Scripts/Plugins/KindAttributePlugin.cs:93-101 | afterwards `IsDirty()` is false and the replacements are unchanged |
| KindPlugin.KindAttributePlugin.Generate | Documentator/Packages/documentator/Scripts/Plugins/KindAttributePlugin.cs:32-38 | the heap afterwards is the old heap with every item reachable from any namespace reclassified exactly once, and every other item unchanged |
| KindPlugin.KindAttributePlugin.ApplyFirstMatch | Documentator/Packages/documentator/Scripts/Plugins/KindAttributePlugin.cs:44-51 | the inner loop with its `break` sets the item's kind to the first match's new kind and changes nothing else |
| KindPlugin.KindAttributePlugin.ProcessItems | Documentator/Packages/documentator/Scripts/Plugins/KindAttributePlugin.cs:40-56 | the recursive walk reclassifies exactly the items reachable from the given list |
| KindPlugin.KindAttributePlugin.VisitSibling | Documentator/Packages/documentator/Scripts/Plugins/KindAttributePlugin.cs:42-55 | one turn of the loop: after the i-th sibling and everything below it are looked at, the heap is the rewrite of the first i + 1 siblings' subtrees |
| KindPlugin.ProjectReachContains | Documentator/Packages/documentator/Scripts/Plugins/KindAttributePlugin.cs:34-37 | every item at every depth below every namespace's items is visited |
| KindPlugin.TreeRewritten | Documentator/Packages/documentator/Scripts/Plugins/KindAttributePlugin.cs:40-56 | on an item's tree the rewrite is `Relabel`: every kind in the tree mapped by the rule, with the shape unchanged |
| KindPlugin.GenerateTrees | Documentator/Packages/documentator/Scripts/Plugins/KindAttributePlugin.cs:32-56 | after Generate the project's value view is the old one with every kind relabelled, and nothing else about the project changes |
| KindPlugin.RelabelEmpty | Documentator/Packages/documentator/Scripts/Plugins/KindAttributePlugin.cs:18 | relabelling with no replacements is the identity |
| MarkdownFormat.LowerRun | Documentator/Packages/documentator/Scripts/MarkdownGenerator.cs:397 | the length of the maximal run of lower-case letters at the start |
| MarkdownFormat.DigitRun | Documentator/Packages/documentator/Scripts/MarkdownGenerator.cs:397 | the length of the maximal run of digits at the start |
| MarkdownFormat.TokensAreTokens | Documentator/Packages/documentator/Scripts/MarkdownGenerator.cs:397 | every match of `[A-Z][a-z]*\|\d+` is an upper-case letter followed by lower-case letters, or a run of digits |
| MarkdownFormat.TokensSeparator | Documentator/Packages/documentator/Scripts/MarkdownGenerator.cs:397 | a character that is no letter or digit splits the matches: those of the text around it, in order |
| MarkdownFormat.TokensOfJoin | Documentator/Packages/documentator/Scripts/MarkdownGenerator.cs:397-399 | the matches of matches joined by '-' are those matches again |
| MarkdownFormat.FormatFileNameIdempotent | Documentator/Packages/documentator/Scripts/MarkdownGenerator.cs:395-400 | `FormatFileName` is idempotent |
| MarkdownFormat.NestedFileName | Documentator/Packages/documentator/Scripts/MarkdownGenerator.cs:111 | a nested page's file name is the parent's matches followed by its own, joined by '-' |
| MarkdownFormat.NoTokens | Documentator/Packages/documentator/Scripts/MarkdownGenerator.cs:397 | a name without upper-case letters and digits, such as `foo`, gives the empty file name |
| MarkdownFormat.FormatFileNameChars | Documentator/Packages/documentator/Scripts/MarkdownGenerator.cs:395-400 | a file name holds only letters, digits and '-' |
| MarkdownFormat.AnchorLowerCase | Documentator/Packages/documentator/Scripts/MarkdownGenerator.cs:407-410 | an anchor holds no upper-case letter |
| MarkdownFormat.SplitOnJoin | Documentator/Packages/documentator/Scripts/MarkdownGenerator.cs:418 | `Split(':')` joined back with ':' is the original text |
| MarkdownFormat.CrefNameAfterColon | Documentator/Packages/documentator/Scripts/MarkdownGenerator.cs:418-419 | a cref without ':' is kept; otherwise everything through the first ':' is dropped |
| MarkdownFormat.RemoveArityNoMarker | Documentator/Packages/documentator/Scripts/MarkdownGenerator.cs:422 | after the replace no backtick is followed by a digit |
| MarkdownFormat.FormatCrefClean | Documentator/Packages/documentator/Scripts/MarkdownGenerator.cs:412-426 | an empty cref gives ""; a formatted cref has no braces and no arity marker |
| MarkdownFormat.DirectoryParts | Documentator/Packages/documentator/Scripts/MarkdownGenerator.cs:402-405 | the directory name has one folder per dotted part of the name |
| MarkdownFormat.RootStart | Documentator/Packages/documentator/Scripts/MarkdownGenerator.cs:43 | `Path.Combine` starts at the last rooted part, or at the first part when none is rooted |
| MarkdownFormat.RootedPackageDropsOutput | Documentator/Packages/documentator/Scripts/MarkdownGenerator.cs:43 | with a rooted package name the combined path does not depend on the output folder |
| MarkdownFormat.RootedPackageExample | Documentator/Packages/documentator/Scripts/MarkdownGenerator.cs:43 | output folder "/docs" and package "/home/u/Proj" give "/home/u/Proj" |
| MarkdownFormat.PathCombineUnderFolder | Documentator/Packages/documentator/Scripts/MarkdownGenerator.cs:43 | parts joined onto a non-empty folder give a path that starts with that folder |
| MarkdownPages.NamespaceFolderUnderOutput | Documentator/Packages/documentator/Scripts/MarkdownGenerator.cs:43 | every namespace folder starts with the output folder, whatever the package name |
| MarkdownFormat.FormatAttributeBare | Documentator/Packages/documentator/Scripts/MarkdownGenerator.cs:349-358 | an attribute prints as its bare name exactly when it has no parameters; it always starts with its name |
| MarkdownFormat.TemplateWithoutItems | Documentator/Packages/documentator/Scripts/MarkdownGenerator.cs:235 | a template without format items is written unchanged |
| MarkdownFormat.DefaultTemplate | Documentator/Packages/documentator/Scripts/MarkdownGenerator.cs:235 | the default template `kind + " {0}"` gives the kind, a space and the name |
| Sorting.KeyLeTotal | Documentator/Packages/documentator/Scripts/MarkdownGenerator.cs:362-363 | the (kind index, name) order is total |
| Sorting.KeyLeTransitive | Documentator/Packages/documentator/Scripts/MarkdownGenerator.cs:362-363 | the (kind index, name) order is transitive |
| Sorting.SortByKeyFacts | Documentator/Packages/documentator/Scripts/MarkdownGenerator.cs:360-364 | the sort is ordered by key, a permutation, and stable: the entries with equal keys keep their input order |
| Sorting.SortByKeyValues | Documentator/Packages/documentator/Scripts/MarkdownGenerator.cs:360-364 | the sorted values are a permutation of the input values |
| Sorting.SortByKeySorted | Documentator/Packages/documentator/Scripts/MarkdownGenerator.cs:360-364 | an input already sorted comes back unchanged |
| MarkdownXml.FormatXmlElement | Documentator/Packages/documentator/Scripts/MarkdownGenerator.cs:238-295 | the loop over the child nodes computes `ElementText`: the formatted text of every child, concatenated and trimmed |
| MarkdownXml.FormatNode | Documentator/Packages/documentator/Scripts/MarkdownGenerator.cs:245-291 | one child: text as it is, `c` in backticks, `code` fenced, `para` between blank lines, `see` as cref or link, `paramref`/`typeparamref` in backticks, `list` as a list, any other tag as its formatted content |
| MarkdownXml.FormatList | Documentator/Packages/documentator/Scripts/MarkdownGenerator.cs:297-347 | the list's text is `ListText`: a blank line, the table header for tables, one line per item, a blank line |
| MarkdownXml.FormatItem | Documentator/Packages/documentator/Scripts/MarkdownGenerator.cs:307-341 | one item line: a table row, a numbered line or a bullet; the term in bold when present |
| MarkdownXml.ListFraming | Documentator/Packages/documentator/Scripts/MarkdownGenerator.cs:297-347 | a list is framed by blank lines; a table has the `\| Term \| Description \|` header and separator; then the lines of the `item` children, in order, numbered from 1 |
| MarkdownXml.ItemLinesSnoc | Documentator/Packages/documentator/Scripts/MarkdownGenerator.cs:315-322 | the k-th item of a numbered list is numbered k, consecutively |
| MarkdownXml.ItemsTextByItems | Documentator/Packages/documentator/Scripts/MarkdownGenerator.cs:307 | only `item` children give lines; other children are skipped |
| MarkdownXml.ChildTextIsElement | Documentator/Packages/documentator/Scripts/MarkdownGenerator.cs:309-311 | the term or description text is that of the first child of that name, "" when it is missing |
| MarkdownXml.ElementTextTrimmed | Documentator/Packages/documentator/Scripts/MarkdownGenerator.cs:294 | an element's text neither starts nor ends with white space |
| MarkdownXml.PlainText | Documentator/Packages/documentator/Scripts/MarkdownGenerator.cs:247-249 | an element holding only text formats as that text, trimmed |
| MarkdownXml.GroupNameIsLower | Documentator/Packages/documentator/Scripts/MarkdownGenerator.cs:222-224 | the names that get a closing blank line are lower case and grouped |
| MarkdownXml.GroupMarkdown | Documentator/Packages/documentator/Scripts/MarkdownGenerator.cs:167-227 | a run of siblings with one grouped tag (param, typeparam, exception, seealso) renders as its heading once, then one entry per sibling, then one blank line when the tag is in lower case |
| MarkdownXml.RunPosition | Documentator/Packages/documentator/Scripts/MarkdownGenerator.cs:169 | in such a run, an element is the first of its name exactly at the start of the run and the last exactly at its end |
| MarkdownXml.ElementMarkdownEntry | Documentator/Packages/documentator/Scripts/MarkdownGenerator.cs:167-175 | a grouped element writes the heading if it is the first of its name, its entry, and a blank line if it is the last |
| MarkdownXml.SectionAnywhere | Documentator/Packages/documentator/Scripts/MarkdownGenerator.cs:162-218 | summary, returns, value, remarks, example and unknown tags render as a section wherever they stand; unknown tags get their capitalised name as heading |
| MarkdownXml.TopLevelTextIgnored | Documentator/Packages/documentator/Scripts/MarkdownGenerator.cs:144-147 | bare text between the top-level elements of a comment does not change its Markdown |
| MarkdownXml.FirstIndexNamed | Documentator/Packages/documentator/Scripts/MarkdownGenerator.cs:185 | `Elements(name).First()`: None exactly when no sibling has the name, otherwise the position of the first one |
| MarkdownXml.AsWrittenAgreesOnLowerCase | Documentator/Packages/documentator/Scripts/MarkdownGenerator.cs:184-204 | for a tag written in lower case the code as written gives the same Markdown as the corrected element rendering |
| MarkdownXml.AsWrittenThrows | Documentator/Packages/documentator/Scripts/MarkdownGenerator.cs:185 | an `<Exception>` element with no lower-case `exception` sibling makes `First()` fail |
| MarkdownXml.CapitalisedExceptionTag | Documentator/Packages/documentator/Scripts/MarkdownGenerator.cs:160 | `Exception` reaches the "exception" case, yet differs from the literal "exception" |
| MarkdownXml.ProcessXmlElement | Documentator/Packages/documentator/Scripts/MarkdownGenerator.cs:158-228 | appends `ElementMarkdown` of the element among its siblings, which has the corrected `exception`/`seealso` lookup of the Findings row |
| MarkdownXml.AppendElementBody | Documentator/Packages/documentator/Scripts/MarkdownGenerator.cs:160-220 | the switch: appends the element's body; `exception` and `seealso` siblings are looked up by the element's own name (the corrected lookup) |
| MarkdownXml.AppendGroupEntry | Documentator/Packages/documentator/Scripts/MarkdownGenerator.cs:167-175 | a grouped element: its heading when it is the first of its name, then its entry |
| MarkdownXml.AppendSection | Documentator/Packages/documentator/Scripts/MarkdownGenerator.cs:177-198 | a heading, the element's text and a blank line |
| MarkdownXml.AppendSummary | Documentator/Packages/documentator/Scripts/MarkdownGenerator.cs:162-165 | the summary's text and a blank line, with no heading |
| MarkdownXml.AppendGroupHeading | Documentator/Packages/documentator/Scripts/MarkdownGenerator.cs:169-172 | the heading only before the first sibling of that name |
| MarkdownXml.AppendEntry | Documentator/Packages/documentator/Scripts/MarkdownGenerator.cs:173-214 | ``- `name`: text`` for param, ``- `cref`: text`` for exception, the cref or the link for seealso |
| MarkdownXml.ProcessCustomXmlElement | Documentator/Packages/documentator/Scripts/MarkdownGenerator.cs:428-433 | the capitalised tag name as heading one level below, the element's text, a blank line |
| MarkdownPages.MembersAbove | Documentator/Packages/documentator/Scripts/MarkdownGenerator.cs:77 | an item's members come after it in the heap, so a page's recursion ends |
| MarkdownPages.WhereClass | Documentator/Packages/documentator/Scripts/MarkdownGenerator.cs:99 | `Where(classKinds.Contains(Kind))` and its negation keep exactly the members of (non-)class kinds, in order |
| MarkdownPages.Keyed | Documentator/Packages/documentator/Scripts/MarkdownGenerator.cs:362-363 | each item paired with its (kind index, name) key |
| MarkdownPages.SortItems | Documentator/Packages/documentator/Scripts/MarkdownGenerator.cs:360-364 | the sorted items are a permutation of the input |
| MarkdownPages.SortItemsFacts | Documentator/Packages/documentator/Scripts/MarkdownGenerator.cs:360-364 | sorted by kind index then name; a kind absent from `kindOrder` (index -1) comes before every listed kind; a permutation; stable |
| MarkdownPages.KindsOf | Documentator/Packages/documentator/Scripts/MarkdownGenerator.cs:77 | the keys of `GroupBy(Kind)`: every kind present, each once |
| MarkdownPages.KindsOfWitness | Documentator/Packages/documentator/Scripts/MarkdownGenerator.cs:77 | every group key is the kind of some member |
| MarkdownPages.OfKind | Documentator/Packages/documentator/Scripts/MarkdownGenerator.cs:77 | a group holds exactly the members of its kind, in order |
| MarkdownPages.MemberGroupsFacts | Documentator/Packages/documentator/Scripts/MarkdownGenerator.cs:77 | the groups of a page are those of GroupBy, left in place by OrderBy; none is of a class kind; kinds are distinct and in index order; every non-class member is in the group of its kind |
| MarkdownPages.GroupsInOrder | Documentator/Packages/documentator/Scripts/MarkdownGenerator.cs:77 | OrderBy by kind index does not move the groups, which are already in index order |
| MarkdownPages.GroupsNotClasses | Documentator/Packages/documentator/Scripts/MarkdownGenerator.cs:77 | class, struct and interface members never appear in a group |
| MarkdownPages.GroupsComplete | Documentator/Packages/documentator/Scripts/MarkdownGenerator.cs:77 | every other member appears in the group of its kind |
| MarkdownPages.GroupsSorted | Documentator/Packages/documentator/Scripts/MarkdownGenerator.cs:77 | a stable OrderBy leaves groups already in index order in place |
| MarkdownPages.KindsInKeyOrder | Documentator/Packages/documentator/Scripts/MarkdownGenerator.cs:77 | over sorted members, the group keys come in kind index order |
| MarkdownPages.NestedClasses | Documentator/Packages/documentator/Scripts/MarkdownGenerator.cs:99 | the nested types of a page are of class kinds and come after it |
| MarkdownPages.ItemMarkdownCases | Documentator/Packages/documentator/Scripts/MarkdownGenerator.cs:125-156 | a whitespace-only comment writes nothing, not even attributes; without attributes to write the output is the comment's Markdown; malformed XML ends the output with the single error line quoting the comment |
| MarkdownPages.InlineEntryTwice | Documentator/Packages/documentator/Scripts/MarkdownGenerator.cs:380-384 | with inline classes, each nested type's entry is written twice in a row: by the loop and as the first line of its own table |
| MarkdownPages.TopLevelLinkIsFileName | Documentator/Packages/documentator/Scripts/MarkdownGenerator.cs:390 | on a top-level page the link to a nested type is the file name that page is written under |
| MarkdownPages.DeepLinkMissesFileName | Documentator/Packages/documentator/Scripts/MarkdownGenerator.cs:390 | one level further down the link differs from the file name written at line 111 |
| MarkdownPages.PagesInFolder | Documentator/Packages/documentator/Scripts/MarkdownGenerator.cs:108-122 | every page of an item's subtree is a `.md` file in the same folder |
| MarkdownPages.NestedWritesContain | Documentator/Packages/documentator/Scripts/MarkdownGenerator.cs:116-122 | every named nested type gets its own page under the parent-prefixed file name |
| MarkdownPages.TopLevelLinksResolve | Documentator/Packages/documentator/Scripts/MarkdownGenerator.cs:111-122 | on a top-level page with linked classes every link to a nested type names a page that is written |
| MarkdownPages.ProjectWritesAppend | Documentator/Packages/documentator/Scripts/MarkdownGenerator.cs:41-49 | the pages of two namespace lists are those of each list in turn |
| MarkdownPages.MarkdownGenerator.constructor | Documentator/Packages/documentator/Scripts/MarkdownGenerator.cs:28-37 | the settings are stored as given |
| MarkdownPages.MarkdownGenerator.GenerateMarkdown | Documentator/Packages/documentator/Scripts/MarkdownGenerator.cs:39-50 | the files afterwards are the old files with `ProjectWrites` applied: for each namespace in order, the pages of its sorted top-level items in the namespace's folder |
| MarkdownPages.MarkdownGenerator.GenerateNamespace | Documentator/Packages/documentator/Scripts/MarkdownGenerator.cs:43-48 | one namespace's pages |
| MarkdownPages.MarkdownGenerator.GenerateItemFiles | Documentator/Packages/documentator/Scripts/MarkdownGenerator.cs:45-48 | the pages of sibling items in order |
| MarkdownPages.MarkdownGenerator.GenerateItemMarkdownFile | Documentator/Packages/documentator/Scripts/MarkdownGenerator.cs:52-123 | no file for an item without a name, nor for anything below it; otherwise its page, then, unless classes are inlined, its nested types' pages in sorted order |
| MarkdownPages.MarkdownGenerator.BuildPage | Documentator/Packages/documentator/Scripts/MarkdownGenerator.cs:60-106 | the page is `PageText`: title, table of contents, the item's Markdown, the member groups and the inlined nested types |
| MarkdownPages.MarkdownGenerator.AppendTitle | Documentator/Packages/documentator/Scripts/MarkdownGenerator.cs:62-66 | `# FullName` and a blank line when titles are on, nothing otherwise |
| MarkdownPages.MarkdownGenerator.AppendTocSection | Documentator/Packages/documentator/Scripts/MarkdownGenerator.cs:68-73 | the table of contents section when enabled |
| MarkdownPages.MarkdownGenerator.AppendGroups | Documentator/Packages/documentator/Scripts/MarkdownGenerator.cs:77-95 | each group: its heading when there is one, then its members |
| MarkdownPages.MarkdownGenerator.AppendKindHeading | Documentator/Packages/documentator/Scripts/MarkdownGenerator.cs:81-86 | a group heading only when the kind's index is within `kindTitles` |
| MarkdownPages.MarkdownGenerator.AppendMembers | Documentator/Packages/documentator/Scripts/MarkdownGenerator.cs:88-94 | the members of a group in order |
| MarkdownPages.MarkdownGenerator.AppendMember | Documentator/Packages/documentator/Scripts/MarkdownGenerator.cs:90-93 | `### FormatName`, a blank line, and the member's Markdown at level 3 |
| MarkdownPages.MarkdownGenerator.AppendInlineText | Documentator/Packages/documentator/Scripts/MarkdownGenerator.cs:97-106 | the nested types' sections only when classes are inlined |
| MarkdownPages.MarkdownGenerator.AppendInlineSections | Documentator/Packages/documentator/Scripts/MarkdownGenerator.cs:99-105 | the sections of the nested types in sorted order |
| MarkdownPages.MarkdownGenerator.AppendInlineSection | Documentator/Packages/documentator/Scripts/MarkdownGenerator.cs:101-104 | `## FormatName`, a blank line, and the nested type's Markdown at level 2 |
| MarkdownPages.MarkdownGenerator.GenerateItemMarkdown | Documentator/Packages/documentator/Scripts/MarkdownGenerator.cs:125-156 | appends `ItemMarkdown`: nothing for a blank comment; otherwise the attribute lines and the comment's Markdown, or the error line |
| MarkdownPages.MarkdownGenerator.AppendAttributes | Documentator/Packages/documentator/Scripts/MarkdownGenerator.cs:133-139 | one `*Attribute*` line per attribute, in order |
| MarkdownPages.MarkdownGenerator.AppendElements | Documentator/Packages/documentator/Scripts/MarkdownGenerator.cs:144-147 | the Markdown of each top-level element in order |
| MarkdownPages.MarkdownGenerator.GenerateTableOfContents | Documentator/Packages/documentator/Scripts/MarkdownGenerator.cs:366-393 | appends `Toc`: the item's entry, the indented entries of its other members, then either each nested type's entry and its own table, or a link to its page |
| MarkdownPages.MarkdownGenerator.AppendMemberEntries | Documentator/Packages/documentator/Scripts/MarkdownGenerator.cs:372-376 | one indented entry per non-class member, in sorted order |
| MarkdownPages.MarkdownGenerator.AppendInlineToc | Documentator/Packages/documentator/Scripts/MarkdownGenerator.cs:378-385 | each nested type's entry followed by its own table |
| MarkdownPages.MarkdownGenerator.AppendPageLinks | Documentator/Packages/documentator/Scripts/MarkdownGenerator.cs:386-392 | one link to each nested type's page |
| Generator.Swapped | Documentator/Packages/documentator/Scripts/DocumentationGenerator.cs:198 | the tuple swap exchanges two positions and keeps every other one; the list is a permutation of the old one |
| Generator.Removed | Documentator/Packages/documentator/Scripts/DocumentationGenerator.cs:212 | `RemoveAt(i)` drops position i and shifts the rest down |
| Generator.SwapTwice | Documentator/Packages/documentator/Scripts/DocumentationGenerator.cs:196-208 | swapping the same pair twice restores the list, so moving a row down after moving it up restores the table |
| Generator.SwappedRows | Documentator/Packages/documentator/Scripts/DocumentationGenerator.cs:196-208 | swapping the three lists at the same indices swaps whole rows of the kind table |
| Generator.RemovedRows | Documentator/Packages/documentator/Scripts/DocumentationGenerator.cs:210-216 | removing from the three lists at the same index removes one whole row |
| Generator.AllEnabled | Documentator/Packages/documentator/Scripts/DocumentationGenerator.cs:270-274 | the loop makes one true flag per folder |
| Generator.SuffixedFor | Documentator/Packages/documentator/Scripts/DocumentationGenerator.cs:286-300 | the loops make `kind + suffix` for each kind, in order: `" {0}"` for the templates and `"s"` for the titles |
| Generator.EnabledPlugins | Documentator/Packages/documentator/Scripts/DocumentationGenerator.cs:419 | the plugins whose entry at the same position is enabled, in order |
| Generator.EnabledPluginsExtremes | Documentator/Packages/documentator/Scripts/DocumentationGenerator.cs:419 | all entries enabled: every plugin runs, in order; none enabled: none runs |
| Generator.PluginsApplied | Documentator/Packages/documentator/Scripts/DocumentationGenerator.cs:420-423 | running plugins one after the other keeps the forest, the top-level items and the shape |
| Generator.PluginsOnlyKinds | Documentator/Packages/documentator/Scripts/DocumentationGenerator.cs:420-423 | after the plugins every item keeps everything but its kind |
| Generator.NoPluginsNoChange | Documentator/Packages/documentator/Scripts/DocumentationGenerator.cs:420-423 | with no plugin enabled the parsed heap is rendered as it is |
| Generator.DisabledFolderIgnored | Documentator/Packages/documentator/Scripts/DocumentationGenerator.cs:410-414 | a disabled folder contributes nothing, wherever it is in the list |
| Generator.ProjectTreesAppend | Documentator/Packages/documentator/Scripts/DocumentationGenerator.cs:416 | `AddRange` of namespaces appends their views; same-named namespaces of different folders stay apart |
| Generator.LoadFolders | Documentator/Packages/documentator/Scripts/DocumentationGenerator.cs:266-275 | the saved folders (none when missing); the saved flags when there is one per folder, otherwise all true |
| Generator.LoadKinds | Documentator/Packages/documentator/Scripts/DocumentationGenerator.cs:282-301 | the saved kind order only when it is non-empty, otherwise the current one; the saved templates and titles when their length matches, otherwise `kind + " {0}"` and `kind + "s"` |
| Generator.DocumentationGenerator.constructor | Documentator/Packages/documentator/Scripts/DocumentationGenerator.cs:19-37 | the initial settings, with the three default kind lists of equal length |
| Generator.DocumentationGenerator.MoveKindUp | Documentator/Packages/documentator/Scripts/DocumentationGenerator.cs:196-201 | row i swaps with row i-1 in all three lists when i > 0, otherwise nothing changes; the lists stay aligned and no other setting changes, the output folder included |
| Generator.DocumentationGenerator.MoveKindDown | Documentator/Packages/documentator/Scripts/DocumentationGenerator.cs:203-208 | row i swaps with row i+1 when it is not the last row; no other setting changes |
| Generator.DocumentationGenerator.RemoveKind | Documentator/Packages/documentator/Scripts/DocumentationGenerator.cs:210-216 | row i leaves all three lists; no other setting changes |
| Generator.DocumentationGenerator.AddKind | Documentator/Packages/documentator/Scripts/DocumentationGenerator.cs:221-226 | the row ("newKind", "newKind {0}", "NewKinds") is appended to the three lists; no other setting changes |
| Generator.DocumentationGenerator.LoadConfig | Documentator/Packages/documentator/Scripts/DocumentationGenerator.cs:260-303 | without a settings file nothing changes; otherwise every setting is taken from the file, with the flags, templates and titles realigned as LoadFolders and LoadKinds say |
| Generator.DocumentationGenerator.Apply | Documentator/Packages/documentator/Scripts/DocumentationGenerator.cs:266-303 | the fields after a settings file was read |
| Generator.DocumentationGenerator.GenerateDocumentation | Documentator/Packages/documentator/Scripts/DocumentationGenerator.cs:399-430 | nothing happens without an input folder or an output folder. Otherwise the project is the enabled folders' parses in folder order, the enabled plugins rewrite it in order, and the files afterwards are its pages |
| Generator.DocumentationGenerator.GenerateEnabled | Documentator/Packages/documentator/Scripts/DocumentationGenerator.cs:407-427 | with both folders set: the project is the enabled folders' parses, rewritten by the enabled plugins in order, and the files afterwards are its pages |
| Generator.DocumentationGenerator.Prepare | Documentator/Packages/documentator/Scripts/DocumentationGenerator.cs:407-423 | parse the enabled folders, then run the enabled plugins |
| Generator.DocumentationGenerator.Render | Documentator/Packages/documentator/Scripts/DocumentationGenerator.cs:425-427 | the renderer built from the window's settings writes the project's pages |
| Generator.DocumentationGenerator.ParseFolders | Documentator/Packages/documentator/Scripts/DocumentationGenerator.cs:410-417 | the project's view is `EnabledTrees`: each enabled folder's namespaces, appended in folder order |
| Generator.DocumentationGenerator.ParseFolder | Documentator/Packages/documentator/Scripts/DocumentationGenerator.cs:416 | one folder's namespaces are appended to the project's |
| Generator.DocumentationGenerator.RunPlugins | Documentator/Packages/documentator/Scripts/DocumentationGenerator.cs:420-423 | each enabled plugin's Generate, once each, in order |

## Left out

- The Unity editor user interface is not modelled: `OnGUI`, `DrawKindOrderSection`'s widgets, `DrawPluginsSection`, `ShowWindow` and `KindAttributePlugin.OnGUI`. Only the list edits behind the kind-table buttons are modelled.
- JSON persistence is not modelled: `SaveConfig`, `JsonUtility`, `GetSerializedSettings`, `SerializableList`. A settings file is an `Option<SavedConfig>`, with None for a missing file, and a list the file lacks is None. Plugin settings are an `Option` of replacement lists.
- Generator.DocumentationGenerator.LoadConfig: does not replay the plugin-settings loop (lines 304-312), because it calls `LoadSettings` on plugins found by reflection with JSON text; `KindAttributePlugin.LoadSettings` is modelled on its own.
- Plugin discovery in `LoadPlugins` is not modelled, since it relies on reflection over loaded assemblies. The plugins are a constructor parameter of the window, and `pluginConfigs` must be at least as long as the plugin list, as `GenerateDocumentation` indexes it. `IDocumentationPlugin` has no behaviour; `KindAttributePlugin` is its only implementation.
- Roslyn and `XDocument.Parse` are not modelled. A C# file is a `MemberSyntax` sequence; the XML parser is a function parameter that returns `Parsed(root)` or `XmlError(message)`.
- The file system is not modelled. `Directory.GetFiles` plus parsing is a parameter `sources` from folder to files, and `Path.GetDirectoryName(projectPath)` is a parameter `packageOf`. Output goes to a path→text map, so `Directory.CreateDirectory` is left out. `Path.Combine` joins the non-empty parts with '/'. It does not avoid a doubled separator, and the rendering does not reset at a rooted part: see "Findings".
- MarkdownXml.ProcessXmlElement: renders the corrected `exception`/`seealso` lookup of the first Findings row, not lines 184-185 and 200-201 as written. A capitalised `<Exception>` or `<SeeAlso>` with no lower-case sibling therefore gets a section here, where the code throws an uncaught `InvalidOperationException` and ends `GenerateDocumentation` after the pages already written. With a lower-case sibling present, the heading comes before the first element of the run here, where the code puts it before that sibling. The code as written is `MarkdownXml.ElementMarkdownAsWritten`.
- MarkdownXml.AppendElementBody: the same corrected lookup. It carries up through `MarkdownPages.MarkdownGenerator.GenerateItemMarkdown`, `BuildPage`, `GenerateMarkdown` and `Generator.DocumentationGenerator.GenerateDocumentation`, whose pages are the corrected ones. They agree with the code whenever these tags are written in lower case (`MarkdownXml.AsWrittenAgreesOnLowerCase`).
- MarkdownPages.MarkdownGenerator.GenerateMarkdown: writes each namespace's pages under `outputFolder/packageName/...` (`MarkdownPages.NamespaceFolderUnderOutput`). The code's `Path.Combine` drops the output folder when the package name is rooted, and it is rooted for a folder chosen in the folder panel (second Findings row). The paths differ whenever `packageOf` gives an absolute path.
- `Debug.Log*` calls are logging only.
- Culture and Unicode are simplified. `ThenBy(Name)` uses ordinal order, and `ToLower`, `ToUpper` and `Trim` are ASCII. `\d` and `[A-Z][a-z]` are ASCII. `Environment.NewLine` is "\n".
- MarkdownFormat.FormatTemplate: models only the `{0}` (name) and `{1}` (kind) format items of `string.Format`; other brace texts are copied, where .NET would throw a `FormatException`.
- An attribute's parameters are a list of (key, value) pairs in insertion order, where writing a present key overwrites it in place. This is the order `Dictionary` enumerates in when nothing is removed.
- `NamespaceInfo.Directory` is read by the renderer but not declared by the model classes. It is an explicit field that the parser leaves empty; how it would be computed is not modelled.
- `KindAttributeReplacement` fields default to null in C# (line 88 adds an empty rule); the model uses strings, so a null field is the empty string.
- Exceptions other than the one under "Findings" are not modelled: none arise from the modelled code on the inputs the types allow.

## Findings

| source | as written | input that shows it | evidently intended | confidence | as-written member | corrected member |
|---|---|---|---|---|---|---|
| Documentator/Packages/documentator/Scripts/MarkdownGenerator.cs:184-185 | the `exception` and `seealso` cases are reached case-insensitively (`ToLower()` at line 160), but the first-sibling test looks up `Elements("exception")` / `Elements("seealso")` with the lower-case literal | a comment `<Exception cref="T:X">boom</Exception>` with no lower-case `<exception>` sibling: `First()` finds nothing and throws, and `GenerateItemMarkdown` catches only `XmlException` | look up the siblings by the element's own name, as the param case at line 169 does | not executed | MarkdownXml.AsWrittenThrows | MarkdownXml.ElementMarkdown |
| Documentator/Packages/documentator/Scripts/MarkdownGenerator.cs:43 | `Path.Combine(outputFolder, namespaceInfo.PackageName, ...)`, where `PackageName` is `Path.GetDirectoryName` of the input folder (DocumentationParser.cs:26), and the input folder comes from `OpenFolderPanel` (DocumentationGenerator.cs:99, 119), so it is absolute; `Path.Combine` discards every part before a rooted one | output folder "/docs", input folder "/home/u/Proj/Assets": the package name is "/home/u/Proj", the namespace folder is "/home/u/Proj", and pages land beside the project instead of under "/docs" | the pages of each package under the output folder | not executed | MarkdownFormat.RootedPackageDropsOutput | MarkdownPages.NamespaceFolderUnderOutput |
