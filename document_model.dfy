/** The documentation tree: a project holds namespaces, a namespace holds
    top-level items, an item holds member items and points back to its parent.

    Items are objects that the parser and the plugins update in place. They are
    kept in a `Heap`: an item reference is the position of the item's record in
    `Heap.items`, allocation appends a record, and a field write replaces one. */
module DocumentModel {
  import opened Text

  type ItemRef = nat

  /** An attribute of a declaration: its name and its arguments, keyed by the
      argument name ("" for a positional argument). The dictionary is kept as an
      insertion-ordered list of distinct keys. */
  datatype AttributeInfo = AttributeInfo(name: string, parameters: seq<(string, string)>)

  /** The fields of one DocumentationItem object. */
  datatype DocumentationItem = DocumentationItem(
    name: string,
    kind: string,
    xmlComment: string,
    attributes: seq<AttributeInfo>,
    members: seq<ItemRef>,
    parent: Option<ItemRef>,
    baseTypes: seq<string>)

  /** One namespace of a project. `directory` is the dotted sub-path the
      renderer turns into an output sub-folder. */
  datatype NamespaceInfo = NamespaceInfo(
    packageName: string,
    name: string,
    directory: string,
    items: seq<ItemRef>)

  /** All items allocated so far. */
  class Heap {
    var items: seq<DocumentationItem>

    constructor()
      ensures items == []
    {
      items := [];
    }

    /** `new DocumentationItem { Name, Kind, XmlComment }`: a fresh item with no
        attributes, members or base types and no parent. */
    method NewItem(name: string, kind: string, xmlComment: string) returns (r: ItemRef)
      modifies this
      ensures r == old(|items|)
      ensures items == old(items) + [DocumentationItem(name, kind, xmlComment, [], [], None, [])]
    {
      r := |items|;
      items := items + [DocumentationItem(name, kind, xmlComment, [], [], None, [])];
    }

    /** `item.Attributes.AddRange(attributes)`. */
    method AddAttributes(r: ItemRef, attributes: seq<AttributeInfo>)
      requires r < |items|
      modifies this
      ensures items == old(items)[r := old(items)[r].(attributes := old(items)[r].attributes + attributes)]
    {
      items := items[r := items[r].(attributes := items[r].attributes + attributes)];
    }

    /** `container.Members.Add(member)`. */
    method AddMember(container: ItemRef, member: ItemRef)
      requires container < |items|
      modifies this
      ensures items == old(items)[container := old(items)[container].(members := old(items)[container].members + [member])]
    {
      items := items[container := items[container].(members := items[container].members + [member])];
    }

    /** `item.Parent = parent`. */
    method SetParent(r: ItemRef, parent: ItemRef)
      requires r < |items|
      modifies this
      ensures items == old(items)[r := old(items)[r].(parent := Some(parent))]
    {
      items := items[r := items[r].(parent := Some(parent))];
    }

    /** `item.BaseTypes.Add(baseType)`. */
    method AddBaseType(r: ItemRef, baseType: string)
      requires r < |items|
      modifies this
      ensures items == old(items)[r := old(items)[r].(baseTypes := old(items)[r].baseTypes + [baseType])]
    {
      items := items[r := items[r].(baseTypes := items[r].baseTypes + [baseType])];
    }

    /** `item.Kind = kind`. */
    method SetKind(r: ItemRef, kind: string)
      requires r < |items|
      modifies this
      ensures items == old(items)[r := old(items)[r].(kind := kind)]
    {
      items := items[r := items[r].(kind := kind)];
    }
  }

  /** A DocumentationProject object: its list of namespaces. */
  class DocumentationProject {
    var namespaces: seq<NamespaceInfo>

    constructor()
      ensures namespaces == []
    {
      namespaces := [];
    }
  }

  // ---------------------------------------------------------------------------
  // Shape of the object graph

  /** Every member reference points to a later, allocated item. */
  ghost predicate Closed(items: seq<DocumentationItem>) {
    forall i, k :: 0 <= i < |items| && 0 <= k < |items[i].members| ==> i < items[i].members[k] < |items|
  }

  /** Every parent was allocated before its child. */
  ghost predicate ParentsBelow(items: seq<DocumentationItem>) {
    forall i :: 0 <= i < |items| && items[i].parent.Some? ==> items[i].parent.value < i
  }

  /** A member's parent is the item whose member list holds it. */
  ghost predicate Linked(items: seq<DocumentationItem>) {
    forall i, k :: 0 <= i < |items| && 0 <= k < |items[i].members| && items[i].members[k] < |items| ==>
      items[items[i].members[k]].parent == Some(i)
  }

  /** No member list names an item twice. */
  ghost predicate DistinctMembers(items: seq<DocumentationItem>) {
    forall i, k, l :: 0 <= i < |items| && 0 <= k < l < |items[i].members| ==>
      items[i].members[k] != items[i].members[l]
  }

  /** The items form a forest: the invariant the parser builds and the plugins keep. */
  ghost predicate Forest(items: seq<DocumentationItem>) {
    Closed(items) && ParentsBelow(items) && Linked(items) && DistinctMembers(items)
  }

  /** Distinct allocated items without a parent: the top-level items of a project. */
  ghost predicate Roots(items: seq<DocumentationItem>, roots: seq<ItemRef>) {
    (forall k :: 0 <= k < |roots| ==> roots[k] < |items| && items[roots[k]].parent.None?) &&
    (forall k, l :: 0 <= k < l < |roots| ==> roots[k] != roots[l])
  }

  /** Two heaps with the same links (members and parents), whatever the other fields. */
  ghost predicate SameShape(a: seq<DocumentationItem>, b: seq<DocumentationItem>) {
    |a| == |b| &&
    forall j :: 0 <= j < |a| ==> a[j].members == b[j].members && a[j].parent == b[j].parent
  }

  /** The top-level items of all namespaces, in order. */
  function AllItems(namespaces: seq<NamespaceInfo>): seq<ItemRef> {
    if namespaces == [] then [] else namespaces[0].items + AllItems(namespaces[1..])
  }

  lemma AllItemsAppend(a: seq<NamespaceInfo>, b: seq<NamespaceInfo>)
    ensures AllItems(a + b) == AllItems(a) + AllItems(b)
  {
    if a != [] {
      assert (a + b)[1..] == a[1..] + b;
      AllItemsAppend(a[1..], b);
    } else {
      assert a + b == b;
    }
  }

  // ---------------------------------------------------------------------------
  // FullName

  /** DocumentationItem.FullName: the item's name, prefixed by its parent's full
      name unless the parent is missing or has kind "namespace". */
  function FullName(items: seq<DocumentationItem>, r: ItemRef): string
    requires ParentsBelow(items) && r < |items|
    decreases r
  {
    match items[r].parent
    case None => items[r].name
    case Some(p) =>
      if items[p].kind == "namespace" then items[r].name
      else FullName(items, p) + "." + items[r].name
  }

  function Names(items: seq<DocumentationItem>, chain: seq<ItemRef>): (names: seq<string>)
    requires forall k :: 0 <= k < |chain| ==> chain[k] < |items|
    ensures |names| == |chain|
    ensures forall k :: 0 <= k < |chain| ==> names[k] == items[chain[k]].name
  {
    if chain == [] then [] else Names(items, chain[..|chain| - 1]) + [items[chain[|chain| - 1]].name]
  }

  ghost predicate ChainStep(items: seq<DocumentationItem>, chain: seq<ItemRef>, k: nat)
    requires 1 <= k < |chain| && chain[k] < |items| && chain[k - 1] < |items|
  {
    items[chain[k]].parent == Some(chain[k - 1]) && items[chain[k - 1]].kind != "namespace"
  }

  /** `chain` lists the ancestors whose names make up r's full name, outermost
      first, ending with r: each is the parent of the next, none but possibly the
      first one's parent is a namespace-kind item, and the first has no parent or
      a parent of kind "namespace". */
  ghost predicate IsNameChain(items: seq<DocumentationItem>, chain: seq<ItemRef>, r: ItemRef) {
    |chain| >= 1 && chain[|chain| - 1] == r &&
    (forall k :: 0 <= k < |chain| ==> chain[k] < |items|) &&
    (forall k :: 1 <= k < |chain| ==> ChainStep(items, chain, k)) &&
    (items[chain[0]].parent.None? ||
     (items[chain[0]].parent.value < |items| && items[items[chain[0]].parent.value].kind == "namespace"))
  }

  lemma JoinSnoc(sep: string, parts: seq<string>, last: string)
    requires parts != []
    ensures Join(sep, parts + [last]) == Join(sep, parts) + sep + last
  {
    if |parts| > 1 {
      assert (parts + [last])[1..] == parts[1..] + [last];
      JoinSnoc(sep, parts[1..], last);
    }
  }

  /** FullName is the dot-join of the names along the name chain, for any nesting depth. */
  lemma {:induction false} FullNameIsChainJoin(items: seq<DocumentationItem>, chain: seq<ItemRef>, r: ItemRef)
    requires ParentsBelow(items) && r < |items|
    requires IsNameChain(items, chain, r)
    ensures FullName(items, r) == Join(".", Names(items, chain))
  {
    if |chain| > 1 {
      var front := chain[..|chain| - 1];
      var p := chain[|chain| - 2];
      forall k | 1 <= k < |front| ensures ChainStep(items, front, k) {
        assert ChainStep(items, chain, k);
      }
      assert ChainStep(items, chain, |chain| - 1);
      assert IsNameChain(items, front, p);
      FullNameIsChainJoin(items, front, p);
      JoinSnoc(".", Names(items, front), items[r].name);
    }
  }

  /** Every item has a name chain (the parent links are acyclic). */
  lemma {:induction false} NameChainExists(items: seq<DocumentationItem>, r: ItemRef) returns (chain: seq<ItemRef>)
    requires ParentsBelow(items) && r < |items|
    ensures IsNameChain(items, chain, r)
    decreases r
  {
    match items[r].parent
    case None =>
      chain := [r];
    case Some(p) =>
      if items[p].kind == "namespace" {
        chain := [r];
      } else {
        var front := NameChainExists(items, p);
        chain := front + [r];
        forall k | 1 <= k < |chain| ensures ChainStep(items, chain, k) {
          if k < |front| {
            assert ChainStep(items, front, k);
          }
        }
      }
  }

  /** FullName always ends with the item's own name. */
  lemma FullNameEndsWithName(items: seq<DocumentationItem>, r: ItemRef)
    requires ParentsBelow(items) && r < |items|
    ensures |FullName(items, r)| >= |items[r].name|
    ensures FullName(items, r)[|FullName(items, r)| - |items[r].name|..] == items[r].name
  {
  }

  /** FullName reads only the item and its ancestors, all allocated no later. */
  lemma {:induction false} FullNameFrame(a: seq<DocumentationItem>, b: seq<DocumentationItem>, r: ItemRef)
    requires ParentsBelow(a) && ParentsBelow(b) && r < |a| && r < |b|
    requires forall j :: 0 <= j < r ==> a[j] == b[j]
    requires a[r].name == b[r].name && a[r].parent == b[r].parent
    ensures FullName(a, r) == FullName(b, r)
    decreases r
  {
    if a[r].parent.Some? {
      var p := a[r].parent.value;
      FullNameFrame(a, b, p);
    }
  }

  /** FullName never reads the item's own kind: reclassifying an item keeps its full name. */
  lemma FullNameIgnoresOwnKind(items: seq<DocumentationItem>, r: ItemRef, kind: string)
    requires ParentsBelow(items) && r < |items|
    ensures ParentsBelow(items[r := items[r].(kind := kind)])
    ensures FullName(items[r := items[r].(kind := kind)], r) == FullName(items, r)
  {
    FullNameFrame(items, items[r := items[r].(kind := kind)], r);
  }

  // ---------------------------------------------------------------------------
  // The tree an item stands for

  /** The value of an item together with all its descendants. */
  datatype Tree = Tree(
    name: string,
    kind: string,
    xmlComment: string,
    attributes: seq<AttributeInfo>,
    baseTypes: seq<string>,
    members: seq<Tree>)

  function TreeOf(items: seq<DocumentationItem>, r: ItemRef): Tree
    requires Closed(items) && r < |items|
    decreases |items| - r, 1, 0
  {
    var it := items[r];
    Tree(it.name, it.kind, it.xmlComment, it.attributes, it.baseTypes, TreesOf(items, it.members, r))
  }

  function TreesOf(items: seq<DocumentationItem>, refs: seq<ItemRef>, lo: int): (ts: seq<Tree>)
    requires Closed(items) && forall k :: 0 <= k < |refs| ==> lo < refs[k] < |items|
    ensures |ts| == |refs|
    decreases |items| - lo, 0, |refs|
  {
    if refs == [] then [] else [TreeOf(items, refs[0])] + TreesOf(items, refs[1..], lo)
  }

  lemma {:induction false} TreesOfAt(items: seq<DocumentationItem>, refs: seq<ItemRef>, lo: int, k: nat)
    requires Closed(items) && forall k :: 0 <= k < |refs| ==> lo < refs[k] < |items|
    requires k < |refs|
    ensures TreesOf(items, refs, lo)[k] == TreeOf(items, refs[k])
    decreases |refs|
  {
    if k > 0 {
      TreesOfAt(items, refs[1..], lo, k - 1);
    }
  }

  lemma TreesOfBound(items: seq<DocumentationItem>, refs: seq<ItemRef>, lo: int, lo': int)
    requires Closed(items) && forall k :: 0 <= k < |refs| ==> lo < refs[k] < |items|
    requires lo' <= lo
    ensures TreesOf(items, refs, lo') == TreesOf(items, refs, lo)
  {
    forall k | 0 <= k < |refs| ensures TreesOf(items, refs, lo')[k] == TreesOf(items, refs, lo)[k] {
      TreesOfAt(items, refs, lo', k);
      TreesOfAt(items, refs, lo, k);
    }
  }

  lemma TreesOfSnoc(items: seq<DocumentationItem>, refs: seq<ItemRef>, last: ItemRef, lo: int)
    requires Closed(items) && forall k :: 0 <= k < |refs| ==> lo < refs[k] < |items|
    requires lo < last < |items|
    ensures TreesOf(items, refs + [last], lo) == TreesOf(items, refs, lo) + [TreeOf(items, last)]
  {
    var all := refs + [last];
    forall k | 0 <= k < |all|
      ensures TreesOf(items, all, lo)[k] == (TreesOf(items, refs, lo) + [TreeOf(items, last)])[k]
    {
      TreesOfAt(items, all, lo, k);
      if k < |refs| {
        TreesOfAt(items, refs, lo, k);
      }
    }
  }

  /** The tree of an item depends only on the records allocated at or after it. */
  lemma {:induction false} TreeFrame(a: seq<DocumentationItem>, b: seq<DocumentationItem>, r: ItemRef)
    requires Closed(a) && Closed(b) && r < |a| <= |b|
    requires forall j :: r <= j < |a| ==> b[j] == a[j]
    ensures TreeOf(b, r) == TreeOf(a, r)
    decreases |a| - r
  {
    var ms := a[r].members;
    forall k | 0 <= k < |ms| ensures TreesOf(b, ms, r)[k] == TreesOf(a, ms, r)[k] {
      TreesOfAt(a, ms, r, k);
      TreesOfAt(b, ms, r, k);
      TreeFrame(a, b, ms[k]);
    }
  }

  lemma TreesFrame(a: seq<DocumentationItem>, b: seq<DocumentationItem>, refs: seq<ItemRef>, lo: int)
    requires Closed(a) && Closed(b) && |a| <= |b|
    requires forall k :: 0 <= k < |refs| ==> lo < refs[k] < |a|
    requires forall j :: 0 <= j < |a| && lo < j ==> b[j] == a[j]
    ensures TreesOf(b, refs, lo) == TreesOf(a, refs, lo)
  {
    forall k | 0 <= k < |refs| ensures TreesOf(b, refs, lo)[k] == TreesOf(a, refs, lo)[k] {
      TreesOfAt(a, refs, lo, k);
      TreesOfAt(b, refs, lo, k);
      TreeFrame(a, b, refs[k]);
    }
  }

  /** A namespace as a value: its items' trees. */
  datatype NamespaceTrees = NamespaceTrees(packageName: string, name: string, directory: string, items: seq<Tree>)

  /** Every top-level item of every namespace is allocated. */
  ghost predicate NamespacesAllocated(items: seq<DocumentationItem>, namespaces: seq<NamespaceInfo>) {
    forall k, j :: 0 <= k < |namespaces| && 0 <= j < |namespaces[k].items| ==> namespaces[k].items[j] < |items|
  }

  /** The top-level items of a project: allocated, without a parent, and each
      listed once across all namespaces. */
  ghost predicate ProjectRoots(items: seq<DocumentationItem>, namespaces: seq<NamespaceInfo>) {
    NamespacesAllocated(items, namespaces) &&
    (forall k, j :: 0 <= k < |namespaces| && 0 <= j < |namespaces[k].items| ==>
      items[namespaces[k].items[j]].parent.None?) &&
    (forall k, j, k', j' ::
      0 <= k < |namespaces| && 0 <= j < |namespaces[k].items| &&
      0 <= k' < |namespaces| && 0 <= j' < |namespaces[k'].items| && (k, j) != (k', j') ==>
      namespaces[k].items[j] != namespaces[k'].items[j'])
  }

  /** Every top-level item of every namespace was allocated at or after `base`. */
  ghost predicate RootsFrom(namespaces: seq<NamespaceInfo>, base: int) {
    forall k, j :: 0 <= k < |namespaces| && 0 <= j < |namespaces[k].items| ==> base <= namespaces[k].items[j]
  }

  /** Going from `before` to `after` adds only items allocated at or after n:
      a bound below n that held for every top-level item still holds. */
  ghost predicate KeepsRootsFrom(before: seq<NamespaceInfo>, after: seq<NamespaceInfo>, n: int) {
    forall base :: base <= n && RootsFrom(before, base) ==> RootsFrom(after, base)
  }

  /** The namespaces of a project as values. */
  function ProjectTrees(items: seq<DocumentationItem>, namespaces: seq<NamespaceInfo>): (view: seq<NamespaceTrees>)
    requires Closed(items) && NamespacesAllocated(items, namespaces)
    ensures |view| == |namespaces|
    ensures forall k :: 0 <= k < |namespaces| ==>
      view[k].packageName == namespaces[k].packageName && view[k].name == namespaces[k].name &&
      view[k].directory == namespaces[k].directory && |view[k].items| == |namespaces[k].items|
  {
    seq(|namespaces|, k requires 0 <= k < |namespaces| =>
      NamespaceTrees(namespaces[k].packageName, namespaces[k].name, namespaces[k].directory,
        TreesOf(items, namespaces[k].items, -1)))
  }

  // ---------------------------------------------------------------------------
  // Growing the forest

  /** The heap after `rec` is allocated and attached as the last member of c. */
  function Attached(items: seq<DocumentationItem>, c: ItemRef, rec: DocumentationItem): seq<DocumentationItem>
    requires c < |items|
  {
    var n := |items|;
    (items + [rec])[c := items[c].(members := items[c].members + [n])][n := rec.(parent := Some(c))]
  }

  /** The heap after `rec` was allocated and then grown into a subtree whose
      member trees are `added`, while only c changed among the older records. */
  ghost predicate Grown(a: seq<DocumentationItem>, b: seq<DocumentationItem>, c: ItemRef, added: seq<Tree>) {
    Forest(a) && Forest(b) && c < |a| <= |b| &&
    (forall j :: 0 <= j < |a| && j != c ==> b[j] == a[j]) &&
    b[c] == a[c].(members := b[c].members) &&
    TreeOf(b, c) == TreeOf(a, c).(members := TreeOf(a, c).members + added)
  }

  /** Allocating a record with no members and no parent keeps the forest. */
  lemma ForestAppend(items: seq<DocumentationItem>, rec: DocumentationItem)
    requires Forest(items) && rec.members == [] && rec.parent.None?
    ensures Forest(items + [rec])
  {
    var b := items + [rec];
    forall i, k | 0 <= i < |b| && 0 <= k < |b[i].members| ensures b[b[i].members[k]].parent == Some(i) {
      assert i < |items| && b[i] == items[i];
    }
  }

  /** Allocating a record and attaching it under c keeps the forest. */
  lemma ForestAttach(items: seq<DocumentationItem>, c: ItemRef, rec: DocumentationItem)
    requires Forest(items) && c < |items| && rec.members == [] && rec.parent.None?
    ensures Forest(Attached(items, c, rec))
  {
    var n := |items|;
    var b := Attached(items, c, rec);
    assert forall i :: 0 <= i < |items| && i != c ==> b[i] == items[i];
    assert b[c].members == items[c].members + [n];
    forall i, k | 0 <= i < |b| && 0 <= k < |b[i].members| ensures i < b[i].members[k] < |b| {
    }
    forall i, k | 0 <= i < |b| && 0 <= k < |b[i].members| ensures b[b[i].members[k]].parent == Some(i) {
      if i == c && k == |items[c].members| {
      } else {
        assert b[i].members[k] == items[i].members[k];
      }
    }
    forall i, k, l | 0 <= i < |b| && 0 <= k < l < |b[i].members| ensures b[i].members[k] != b[i].members[l] {
    }
  }

  lemma GrownRefl(a: seq<DocumentationItem>, c: ItemRef)
    requires Forest(a) && c < |a|
    ensures Grown(a, a, c, [])
  {
    assert TreeOf(a, c).members + [] == TreeOf(a, c).members;
  }

  lemma GrownTrans(a: seq<DocumentationItem>, b: seq<DocumentationItem>, d: seq<DocumentationItem>, c: ItemRef, x: seq<Tree>, y: seq<Tree>)
    requires Grown(a, b, c, x) && Grown(b, d, c, y)
    ensures Grown(a, d, c, x + y)
  {
    assert TreeOf(a, c).members + x + y == TreeOf(a, c).members + (x + y);
  }

  /** Allocating `rec` under c, then growing it into a subtree with member trees
      `added`, grows c by exactly that one subtree. */
  lemma AttachThenGrow(a: seq<DocumentationItem>, c: ItemRef, rec: DocumentationItem, d: seq<DocumentationItem>, added: seq<Tree>)
    requires Forest(a) && c < |a| && rec.members == [] && rec.parent.None?
    requires Grown(Attached(a, c, rec), d, |a|, added)
    ensures Grown(a, d, c, [Tree(rec.name, rec.kind, rec.xmlComment, rec.attributes, rec.baseTypes, added)])
  {
    var n := |a|;
    var b := Attached(a, c, rec);
    assert forall j :: 0 <= j < |a| && j != c ==> d[j] == b[j] == a[j];
    assert d[c] == b[c];
    assert d[c].members == a[c].members + [n];
    TreesOfSnoc(d, a[c].members, n, c);
    TreesFrame(a, d, a[c].members, c);
    assert TreeOf(b, n).members == [];
    var t := Tree(rec.name, rec.kind, rec.xmlComment, rec.attributes, rec.baseTypes, added);
    assert TreeOf(d, n) == t;
    assert TreesOf(d, d[c].members, c) == TreesOf(a, a[c].members, c) + [t];
  }

  /** Allocating `rec` as a root, then growing it into a subtree with member
      trees `added`, leaves every older record alone. */
  lemma AppendThenGrow(a: seq<DocumentationItem>, rec: DocumentationItem, d: seq<DocumentationItem>, added: seq<Tree>)
    requires Forest(a) && rec.members == [] && rec.parent.None?
    requires Grown(a + [rec], d, |a|, added)
    ensures forall j :: 0 <= j < |a| ==> d[j] == a[j]
    ensures d[|a|].parent.None?
    ensures TreeOf(d, |a|) == Tree(rec.name, rec.kind, rec.xmlComment, rec.attributes, rec.baseTypes, added)
  {
    assert forall j :: 0 <= j < |a| ==> (a + [rec])[j] == a[j];
    assert TreeOf(a + [rec], |a|).members == [];
  }

  /** Growing under c leaves the project's top-level items as they were. */
  lemma GrownRoots(a: seq<DocumentationItem>, b: seq<DocumentationItem>, c: ItemRef, added: seq<Tree>, namespaces: seq<NamespaceInfo>)
    requires Grown(a, b, c, added) && ProjectRoots(a, namespaces)
    ensures ProjectRoots(b, namespaces)
  {
    forall k, j | 0 <= k < |namespaces| && 0 <= j < |namespaces[k].items|
      ensures b[namespaces[k].items[j]].parent.None?
    {
      var x := namespaces[k].items[j];
      assert a[x].parent.None?;
      if x == c {
        assert b[c].parent == a[c].parent;
      }
    }
  }

  // ---------------------------------------------------------------------------
  // Reachability

  /** The item and all its descendants. */
  ghost function Reach(items: seq<DocumentationItem>, r: ItemRef): set<ItemRef>
    requires Closed(items) && r < |items|
    decreases |items| - r, 1, 0
  {
    {r} + ReachAll(items, items[r].members, r)
  }

  ghost function ReachAll(items: seq<DocumentationItem>, refs: seq<ItemRef>, lo: int): set<ItemRef>
    requires Closed(items) && forall k :: 0 <= k < |refs| ==> lo < refs[k] < |items|
    decreases |items| - lo, 0, |refs|
  {
    if refs == [] then {} else Reach(items, refs[0]) + ReachAll(items, refs[1..], lo)
  }

  lemma {:induction false} ReachAllMember(items: seq<DocumentationItem>, refs: seq<ItemRef>, lo: int, x: ItemRef)
    requires Closed(items) && forall k :: 0 <= k < |refs| ==> lo < refs[k] < |items|
    ensures x in ReachAll(items, refs, lo) <==> exists k :: 0 <= k < |refs| && x in Reach(items, refs[k])
    decreases |refs|
  {
    if refs != [] {
      ReachAllMember(items, refs[1..], lo, x);
      if x in ReachAll(items, refs[1..], lo) {
        var k :| 0 <= k < |refs[1..]| && x in Reach(items, refs[1..][k]);
        assert x in Reach(items, refs[k + 1]);
      }
      if exists k :: 0 <= k < |refs| && x in Reach(items, refs[k]) {
        var k :| 0 <= k < |refs| && x in Reach(items, refs[k]);
        if k > 0 {
          assert x in Reach(items, refs[1..][k - 1]);
        }
      }
    }
  }

  lemma {:induction false} ReachAllSnoc(items: seq<DocumentationItem>, refs: seq<ItemRef>, last: ItemRef, lo: int)
    requires Closed(items) && forall k :: 0 <= k < |refs| ==> lo < refs[k] < |items|
    requires lo < last < |items|
    ensures ReachAll(items, refs + [last], lo) == ReachAll(items, refs, lo) + Reach(items, last)
    decreases |refs|
  {
    if refs == [] {
      assert ([] + [last])[1..] == [];
    } else {
      assert (refs + [last])[1..] == refs[1..] + [last];
      ReachAllSnoc(items, refs[1..], last, lo);
    }
  }

  lemma ReachAllLowerBound(items: seq<DocumentationItem>, refs: seq<ItemRef>, lo: int, lo': int)
    requires Closed(items) && forall k :: 0 <= k < |refs| ==> lo < refs[k] < |items|
    requires lo' <= lo
    ensures ReachAll(items, refs, lo') == ReachAll(items, refs, lo)
  {
    forall x ensures x in ReachAll(items, refs, lo') <==> x in ReachAll(items, refs, lo) {
      ReachAllMember(items, refs, lo, x);
      ReachAllMember(items, refs, lo', x);
    }
  }

  /** Descendants are allocated after their ancestor. */
  lemma {:induction false} ReachBounds(items: seq<DocumentationItem>, r: ItemRef, x: ItemRef)
    requires Closed(items) && r < |items|
    requires x in Reach(items, r)
    ensures r <= x < |items|
    decreases |items| - r
  {
    if x != r {
      var ms := items[r].members;
      ReachAllMember(items, ms, r, x);
      var k :| 0 <= k < |ms| && x in Reach(items, ms[k]);
      ReachBounds(items, ms[k], x);
    }
  }

  /** A proper descendant's parent is itself in the subtree. */
  lemma {:induction false} ReachParent(items: seq<DocumentationItem>, r: ItemRef, x: ItemRef)
    requires Forest(items) && r < |items|
    requires x in Reach(items, r) && x != r
    ensures x < |items| && items[x].parent.Some? && items[x].parent.value in Reach(items, r)
    decreases |items| - r
  {
    ReachBounds(items, r, x);
    var ms := items[r].members;
    ReachAllMember(items, ms, r, x);
    var k :| 0 <= k < |ms| && x in Reach(items, ms[k]);
    ReachAllMember(items, ms, r, ms[k]);
    if x == ms[k] {
      assert items[x].parent == Some(r);
    } else {
      ReachParent(items, ms[k], x);
      ReachAllMember(items, ms, r, items[x].parent.value);
    }
  }

  /** Two different items with the same parent (or both without one) have
      disjoint subtrees: no item is reached twice. */
  lemma {:induction false} SiblingsDisjoint(items: seq<DocumentationItem>, a: ItemRef, b: ItemRef, x: ItemRef)
    requires Forest(items) && a < |items| && b < |items| && a != b
    requires items[a].parent == items[b].parent
    ensures !(x in Reach(items, a) && x in Reach(items, b))
    decreases x
  {
    if x in Reach(items, a) && x in Reach(items, b) {
      ReachBounds(items, a, x);
      ReachBounds(items, b, x);
      if x == a {
        ReachParent(items, b, x);
        ReachBounds(items, b, items[x].parent.value);
        assert false;
      } else if x == b {
        ReachParent(items, a, x);
        ReachBounds(items, a, items[x].parent.value);
        assert false;
      } else {
        ReachParent(items, a, x);
        ReachParent(items, b, x);
        SiblingsDisjoint(items, a, b, items[x].parent.value);
      }
    }
  }

  /** The items reached from distinct siblings listed before position i do not
      include anything reached from the i-th. */
  lemma SiblingsDisjointAll(items: seq<DocumentationItem>, refs: seq<ItemRef>, lo: int, i: nat, parent: Option<ItemRef>)
    requires Forest(items) && forall k :: 0 <= k < |refs| ==> lo < refs[k] < |items|
    requires forall k :: 0 <= k < |refs| ==> items[refs[k]].parent == parent
    requires forall k, l :: 0 <= k < l < |refs| ==> refs[k] != refs[l]
    requires i < |refs|
    ensures ReachAll(items, refs[..i], lo) !! Reach(items, refs[i])
  {
    forall x | x in Reach(items, refs[i]) ensures x !in ReachAll(items, refs[..i], lo) {
      ReachAllMember(items, refs[..i], lo, x);
      forall k | 0 <= k < i ensures x !in Reach(items, refs[..i][k]) {
        SiblingsDisjoint(items, refs[k], refs[i], x);
      }
    }
  }

  /** Reachability depends only on the member links. */
  lemma {:induction false} ReachSameShape(a: seq<DocumentationItem>, b: seq<DocumentationItem>, r: ItemRef)
    requires Closed(a) && SameShape(a, b) && r < |a|
    ensures Closed(b) && Reach(b, r) == Reach(a, r)
    decreases |a| - r
  {
    var ms := a[r].members;
    forall x ensures x in ReachAll(a, ms, r) <==> x in ReachAll(b, ms, r) {
      ReachAllMember(a, ms, r, x);
      ReachAllMember(b, ms, r, x);
      forall k | 0 <= k < |ms| ensures Reach(a, ms[k]) == Reach(b, ms[k]) {
        ReachSameShape(a, b, ms[k]);
      }
    }
  }

  lemma ReachAllSameShape(a: seq<DocumentationItem>, b: seq<DocumentationItem>, refs: seq<ItemRef>, lo: int)
    requires Closed(a) && SameShape(a, b)
    requires forall k :: 0 <= k < |refs| ==> lo < refs[k] < |a|
    ensures Closed(b) && ReachAll(b, refs, lo) == ReachAll(a, refs, lo)
  {
    forall x ensures x in ReachAll(a, refs, lo) <==> x in ReachAll(b, refs, lo) {
      ReachAllMember(a, refs, lo, x);
      ReachAllMember(b, refs, lo, x);
      forall k | 0 <= k < |refs| ensures Reach(a, refs[k]) == Reach(b, refs[k]) {
        ReachSameShape(a, b, refs[k]);
      }
    }
  }
}
