/** KindAttributePlugin: reclassifies items. An item whose kind is a
    replacement's old kind and which carries an attribute of the replacement's
    attribute name gets the replacement's new kind; the first such replacement
    in list order wins, and each item is rewritten at most once per run. Only
    kinds are written. */
module KindPlugin {
  import opened Text
  import opened DocumentModel

  datatype KindAttributeReplacement = KindAttributeReplacement(oldKind: string, attributeName: string, newKind: string)

  /** `item.Attributes.Exists(a => a.Name == name)`. */
  predicate HasAttribute(attributes: seq<AttributeInfo>, name: string) {
    exists k :: 0 <= k < |attributes| && attributes[k].name == name
  }

  predicate Matches(kind: string, attributes: seq<AttributeInfo>, replacement: KindAttributeReplacement) {
    kind == replacement.oldKind && HasAttribute(attributes, replacement.attributeName)
  }

  /** The kind an item ends up with: the new kind of the first matching
      replacement, or its own kind when none matches. */
  function NewKind(kind: string, attributes: seq<AttributeInfo>, replacements: seq<KindAttributeReplacement>): string {
    if replacements == [] then kind
    else if Matches(kind, attributes, replacements[0]) then replacements[0].newKind
    else NewKind(kind, attributes, replacements[1..])
  }

  /** replacements[i] is the first replacement matching the item. */
  predicate FirstMatch(kind: string, attributes: seq<AttributeInfo>, replacements: seq<KindAttributeReplacement>, i: int) {
    0 <= i < |replacements| && Matches(kind, attributes, replacements[i]) &&
    forall j :: 0 <= j < i ==> !Matches(kind, attributes, replacements[j])
  }

  /** The kind changes only through the first matching replacement; with no
      matching replacement it stays. */
  lemma {:induction false} NewKindFirstMatch(kind: string, attributes: seq<AttributeInfo>, replacements: seq<KindAttributeReplacement>)
    ensures forall i :: FirstMatch(kind, attributes, replacements, i) ==>
      NewKind(kind, attributes, replacements) == replacements[i].newKind
    ensures (forall j :: 0 <= j < |replacements| ==> !Matches(kind, attributes, replacements[j])) ==>
      NewKind(kind, attributes, replacements) == kind
  {
    if replacements != [] {
      NewKindFirstMatch(kind, attributes, replacements[1..]);
      forall i | FirstMatch(kind, attributes, replacements, i) && i > 0
        ensures FirstMatch(kind, attributes, replacements[1..], i - 1)
      {
        forall j | 0 <= j < i - 1 ensures !Matches(kind, attributes, replacements[1..][j]) {
          assert replacements[1..][j] == replacements[j + 1];
        }
      }
    }
  }

  /** Conversely, a changed kind comes from a matching replacement. */
  lemma {:induction false} NewKindChanged(kind: string, attributes: seq<AttributeInfo>, replacements: seq<KindAttributeReplacement>)
    requires NewKind(kind, attributes, replacements) != kind
    ensures exists i ::
              FirstMatch(kind, attributes, replacements, i) && NewKind(kind, attributes, replacements) == replacements[i].newKind
  {
    if !Matches(kind, attributes, replacements[0]) {
      NewKindChanged(kind, attributes, replacements[1..]);
      var i :| FirstMatch(kind, attributes, replacements[1..], i) &&
        NewKind(kind, attributes, replacements[1..]) == replacements[1..][i].newKind;
      assert FirstMatch(kind, attributes, replacements, i + 1);
    } else {
      assert FirstMatch(kind, attributes, replacements, 0);
    }
  }

  /** No chaining: one look at an item applies its first matching replacement
      only, even when that replacement's new kind is itself the old kind of a
      replacement that matches; a second look would move the kind on again. */
  lemma NoChaining(kind: string, attributes: seq<AttributeInfo>, replacements: seq<KindAttributeReplacement>, i: int, j: int)
    requires FirstMatch(kind, attributes, replacements, i)
    requires FirstMatch(replacements[i].newKind, attributes, replacements, j)
    ensures NewKind(kind, attributes, replacements) == replacements[i].newKind
    ensures NewKind(NewKind(kind, attributes, replacements), attributes, replacements) == replacements[j].newKind
    ensures replacements[j].newKind != replacements[i].newKind ==>
      NewKind(NewKind(kind, attributes, replacements), attributes, replacements) != NewKind(kind, attributes, replacements)
  {
    NewKindFirstMatch(kind, attributes, replacements);
    NewKindFirstMatch(replacements[i].newKind, attributes, replacements);
  }

  /** An instance: "class" with [Component] becomes "component" and not
      "widget", though "component" with [Component] becomes "widget". */
  lemma NoChainingExample()
    ensures NewKind("class", [AttributeInfo("Component", [])],
      [KindAttributeReplacement("class", "Component", "component"),
       KindAttributeReplacement("component", "Component", "widget")]) == "component"
  {
    var attributes := [AttributeInfo("Component", [])];
    var replacements := [KindAttributeReplacement("class", "Component", "component"),
                         KindAttributeReplacement("component", "Component", "widget")];
    assert HasAttribute(attributes, "Component") by {
      assert attributes[0].name == "Component";
    }
    NoChaining("class", attributes, replacements, 0, 1);
  }

  /** The record of an item after the plugin has looked at it. */
  function Reclassified(item: DocumentationItem, replacements: seq<KindAttributeReplacement>): DocumentationItem {
    item.(kind := NewKind(item.kind, item.attributes, replacements))
  }

  /** The heap after every item in `visited` was looked at once. */
  function Rewritten(items: seq<DocumentationItem>, visited: set<ItemRef>, replacements: seq<KindAttributeReplacement>): (r: seq<DocumentationItem>)
    ensures |r| == |items|
  {
    seq(|items|, j requires 0 <= j < |items| => if j in visited then Reclassified(items[j], replacements) else items[j])
  }

  /** Rewriting touches kinds only: names, comments, attributes, base types,
      members and parents all stay, and so does the forest. */
  lemma RewrittenOnlyKinds(items: seq<DocumentationItem>, visited: set<ItemRef>, replacements: seq<KindAttributeReplacement>)
    requires Forest(items)
    ensures SameShape(items, Rewritten(items, visited, replacements))
    ensures forall j :: 0 <= j < |items| ==>
      Rewritten(items, visited, replacements)[j] == items[j].(kind := Rewritten(items, visited, replacements)[j].kind)
    ensures Forest(Rewritten(items, visited, replacements))
  {
  }

  /** Looking at two disjoint sets of items one after the other is looking at
      their union once. */
  lemma RewrittenCompose(items: seq<DocumentationItem>, s: set<ItemRef>, t: set<ItemRef>, replacements: seq<KindAttributeReplacement>)
    requires s !! t
    ensures Rewritten(Rewritten(items, s, replacements), t, replacements) == Rewritten(items, s + t, replacements)
  {
  }

  /** With no replacements nothing changes. */
  lemma RewrittenEmpty(items: seq<DocumentationItem>, visited: set<ItemRef>)
    ensures Rewritten(items, visited, []) == items
  {
    assert forall j :: 0 <= j < |items| ==> Reclassified(items[j], []) == items[j];
  }

  /** Distinct allocated items after `lo` sharing the parent `parent`. */
  ghost predicate Siblings(items: seq<DocumentationItem>, refs: seq<ItemRef>, lo: int, parent: Option<ItemRef>) {
    (forall k :: 0 <= k < |refs| ==> lo < refs[k] < |items| && items[refs[k]].parent == parent) &&
    (forall k, l :: 0 <= k < l < |refs| ==> refs[k] != refs[l])
  }

  /** The members of an item are siblings under it. */
  lemma MembersSiblings(items: seq<DocumentationItem>, r: ItemRef)
    requires Forest(items) && r < |items|
    ensures Siblings(items, items[r].members, r, Some(r))
  {
  }

  /** An item is not among the descendants of its own members. */
  lemma NotBelowItself(items: seq<DocumentationItem>, r: ItemRef)
    requires Forest(items) && r < |items|
    ensures r !in ReachAll(items, items[r].members, r)
    ensures Reach(items, r) == {r} + ReachAll(items, items[r].members, r)
  {
    var ms := items[r].members;
    if r in ReachAll(items, ms, r) {
      ReachAllMember(items, ms, r, r);
      var k :| 0 <= k < |ms| && r in Reach(items, ms[k]);
      ReachBounds(items, ms[k], r);
    }
  }

  /** The plugin's items and settings. */
  class KindAttributePlugin {
    var replacements: seq<KindAttributeReplacement>
    var isDirty: bool

    constructor()
      ensures replacements == [] && !isDirty
    {
      replacements := [];
      isDirty := false;
    }

    /** LoadSettings: the deserialised list, or an empty list when the settings
        hold none. */
    method LoadSettings(settings: Option<seq<KindAttributeReplacement>>)
      modifies this
      ensures replacements == (match settings case Some(list) => list case None => [])
      ensures isDirty == old(isDirty)
    {
      match settings
      case Some(list) => replacements := list;
      case None => replacements := [];
    }

    function IsDirty(): bool
      reads this
    {
      isDirty
    }

    method ResetDirtyFlag()
      modifies this
      ensures !IsDirty() && replacements == old(replacements)
    {
      isDirty := false;
    }

    /** Generate: every item of every namespace, at every depth, is looked at once. */
    method Generate(project: DocumentationProject, heap: Heap)
      requires Forest(heap.items) && ProjectRoots(heap.items, project.namespaces)
      modifies heap
      ensures heap.items == Rewritten(old(heap.items), ProjectReach(old(heap.items), project.namespaces), replacements)
    {
      ghost var a := heap.items;
      RewrittenOnlyKinds(a, {}, replacements);
      for k := 0 to |project.namespaces|
        invariant heap.items == Rewritten(a, ProjectReach(a, project.namespaces[..k]), replacements)
      {
        var refs := project.namespaces[k].items;
        NamespaceSiblings(a, heap.items, project.namespaces, k, ProjectReach(a, project.namespaces[..k]), replacements);
        ProcessItems(heap, refs, -1, None);
        NamespaceStep(a, project.namespaces, k, replacements);
      }
      assert project.namespaces[..|project.namespaces|] == project.namespaces;
    }

    /** The inner loop of ProcessItems: the first matching replacement, if any,
        sets the item's kind, and the search stops there. */
    method ApplyFirstMatch(heap: Heap, item: ItemRef)
      requires item < |heap.items|
      modifies heap
      ensures heap.items == old(heap.items)[item := Reclassified(old(heap.items)[item], replacements)]
    {
      ghost var b := heap.items;
      var kind := heap.items[item].kind;
      var attributes := heap.items[item].attributes;
      for j := 0 to |replacements|
        invariant heap.items == b
        invariant NewKind(kind, attributes, replacements) == NewKind(kind, attributes, replacements[j..])
      {
        var replacement := replacements[j];
        if kind == replacement.oldKind && HasAttribute(attributes, replacement.attributeName) {
          heap.SetKind(item, replacement.newKind);
          return;
        }
        assert replacements[j..][1..] == replacements[j + 1..];
      }
      assert b[item := Reclassified(b[item], replacements)] == b;
    }

    /** ProcessItems: each item gets the new kind of the first matching
        replacement, then its members are processed the same way. */
    method ProcessItems(heap: Heap, refs: seq<ItemRef>, ghost lo: int, ghost parent: Option<ItemRef>)
      requires Forest(heap.items) && Siblings(heap.items, refs, lo, parent)
      modifies heap
      ensures heap.items == Rewritten(old(heap.items), ReachAll(old(heap.items), refs, lo), replacements)
      decreases |heap.items| - lo, 1
    {
      ghost var a := heap.items;
      for i := 0 to |refs|
        invariant heap.items == Rewritten(a, ReachAll(a, refs[..i], lo), replacements)
      {
        VisitSibling(heap, refs, lo, parent, i, a);
      }
      assert refs[..|refs|] == refs;
    }

    /** One turn of ProcessItems' loop: the i-th sibling is reclassified, then
        its members are processed. */
    method VisitSibling(heap: Heap, refs: seq<ItemRef>, ghost lo: int, ghost parent: Option<ItemRef>, i: nat, ghost a: seq<DocumentationItem>)
      requires Forest(a) && Siblings(a, refs, lo, parent) && i < |refs|
      requires heap.items == Rewritten(a, ReachAll(a, refs[..i], lo), replacements)
      modifies heap
      ensures heap.items == Rewritten(a, ReachAll(a, refs[..i + 1], lo), replacements)
      decreases |heap.items| - lo, 0
    {
      var item := refs[i];
      VisitPrepared(a, refs, lo, parent, i, replacements);
      ApplyFirstMatch(heap, item);
      ProcessItems(heap, heap.items[item].members, item, Some(item));
      VisitDone(a, refs, lo, parent, i, replacements);
    }
  }

  // ---------------------------------------------------------------------------
  // Lemmas about the walk

  /** Before the i-th sibling is looked at, it is untouched, and once it is,
      the heap is still a forest in which its members are siblings. */
  lemma VisitPrepared(a: seq<DocumentationItem>, refs: seq<ItemRef>, lo: int, parent: Option<ItemRef>, i: nat,
                      replacements: seq<KindAttributeReplacement>)
    requires Forest(a) && Siblings(a, refs, lo, parent) && i < |refs|
    ensures var b := Rewritten(a, ReachAll(a, refs[..i], lo), replacements);
      b[refs[i]] == a[refs[i]] &&
      var c := b[refs[i] := Reclassified(b[refs[i]], replacements)];
      Forest(c) && Siblings(c, c[refs[i]].members, refs[i], Some(refs[i])) && |c| == |a|
  {
    var done := ReachAll(a, refs[..i], lo);
    VisitStep(a, refs, lo, parent, i, replacements);
    RewrittenOnlyKinds(a, done + {refs[i]}, replacements);
  }

  /** Looking at the i-th sibling is rewriting it together with the subtrees
      of the siblings before it, none of which contains it. */
  lemma VisitStep(a: seq<DocumentationItem>, refs: seq<ItemRef>, lo: int, parent: Option<ItemRef>, i: nat,
                  replacements: seq<KindAttributeReplacement>)
    requires Forest(a) && Siblings(a, refs, lo, parent) && i < |refs|
    ensures var done := ReachAll(a, refs[..i], lo);
      var b := Rewritten(a, done, replacements);
      refs[i] !in done && b[refs[i] := Reclassified(b[refs[i]], replacements)] == Rewritten(a, done + {refs[i]}, replacements)
  {
    SiblingsDisjointAll(a, refs, lo, i, parent);
    NotBelowItself(a, refs[i]);
  }

  /** After the i-th sibling and its subtree are looked at, the first i + 1
      siblings' subtrees have been. */
  lemma VisitDone(a: seq<DocumentationItem>, refs: seq<ItemRef>, lo: int, parent: Option<ItemRef>, i: nat,
                  replacements: seq<KindAttributeReplacement>)
    requires Forest(a) && Siblings(a, refs, lo, parent) && i < |refs|
    ensures var b := Rewritten(a, ReachAll(a, refs[..i], lo), replacements);
      var c := b[refs[i] := Reclassified(b[refs[i]], replacements)];
      Closed(c) && (forall k :: 0 <= k < |c[refs[i]].members| ==> refs[i] < c[refs[i]].members[k] < |c|) &&
      Rewritten(c, ReachAll(c, c[refs[i]].members, refs[i]), replacements) ==
        Rewritten(a, ReachAll(a, refs[..i + 1], lo), replacements)
  {
    var item := refs[i];
    var done := ReachAll(a, refs[..i], lo);
    var below := ReachAll(a, a[item].members, item);
    VisitStep(a, refs, lo, parent, i, replacements);
    VisitedShape(a, done + {item}, item, replacements);
    SiblingsDisjointAll(a, refs, lo, i, parent);
    NotBelowItself(a, item);
    RewrittenCompose(a, done + {item}, below, replacements);
    ReachAllSnoc(a, refs[..i], item, lo);
    assert refs[..i + 1] == refs[..i] + [item];
  }

  /** Rewriting kinds leaves an item's members, and what they reach, as they were. */
  lemma VisitedShape(a: seq<DocumentationItem>, visited: set<ItemRef>, item: ItemRef, replacements: seq<KindAttributeReplacement>)
    requires Forest(a) && item < |a|
    ensures var c := Rewritten(a, visited, replacements);
      Closed(c) && c[item].members == a[item].members &&
      (forall k :: 0 <= k < |c[item].members| ==> item < c[item].members[k] < |c|) &&
      ReachAll(c, c[item].members, item) == ReachAll(a, a[item].members, item)
  {
    var c := Rewritten(a, visited, replacements);
    RewrittenOnlyKinds(a, visited, replacements);
    assert c[item].members == a[item].members;
    ReachAllSameShape(a, c, a[item].members, item);
  }

  /** The items reached from the namespaces of a project: every item of every
      namespace and all their descendants. */
  ghost function ProjectReach(items: seq<DocumentationItem>, namespaces: seq<NamespaceInfo>): set<ItemRef>
    requires Closed(items) && NamespacesAllocated(items, namespaces)
    decreases |namespaces|
  {
    if namespaces == [] then {}
    else ProjectReach(items, namespaces[..|namespaces| - 1]) + ReachAll(items, namespaces[|namespaces| - 1].items, -1)
  }

  lemma {:induction false} ProjectReachMember(items: seq<DocumentationItem>, namespaces: seq<NamespaceInfo>, x: ItemRef)
    requires Closed(items) && NamespacesAllocated(items, namespaces)
    requires x in ProjectReach(items, namespaces)
    ensures exists k, j :: 0 <= k < |namespaces| && 0 <= j < |namespaces[k].items| && x in Reach(items, namespaces[k].items[j])
    decreases |namespaces|
  {
    var last := |namespaces| - 1;
    if x in ReachAll(items, namespaces[last].items, -1) {
      ReachAllMember(items, namespaces[last].items, -1, x);
    } else {
      ProjectReachMember(items, namespaces[..last], x);
      var k, j :| 0 <= k < last && 0 <= j < |namespaces[..last][k].items| && x in Reach(items, namespaces[..last][k].items[j]);
      assert namespaces[..last][k] == namespaces[k];
    }
  }

  /** Before namespace k is processed, the heap is a forest in which its items
      are siblings without a parent. */
  lemma NamespaceSiblings(a: seq<DocumentationItem>, b: seq<DocumentationItem>, namespaces: seq<NamespaceInfo>, k: nat,
                          done: set<ItemRef>, replacements: seq<KindAttributeReplacement>)
    requires Forest(a) && ProjectRoots(a, namespaces) && k < |namespaces|
    requires b == Rewritten(a, done, replacements)
    ensures Forest(b) && Siblings(b, namespaces[k].items, -1, None)
  {
    RewrittenOnlyKinds(a, done, replacements);
  }

  /** Processing namespace k adds exactly its subtrees to what has been looked at. */
  lemma NamespaceStep(a: seq<DocumentationItem>, namespaces: seq<NamespaceInfo>, k: nat, replacements: seq<KindAttributeReplacement>)
    requires Forest(a) && ProjectRoots(a, namespaces) && k < |namespaces|
    ensures NamespacesAllocated(a, namespaces[..k]) && NamespacesAllocated(a, namespaces[..k + 1])
    ensures var b := Rewritten(a, ProjectReach(a, namespaces[..k]), replacements);
      Closed(b) && (forall j :: 0 <= j < |namespaces[k].items| ==> namespaces[k].items[j] < |b|) &&
      Rewritten(b, ReachAll(b, namespaces[k].items, -1), replacements) ==
        Rewritten(a, ProjectReach(a, namespaces[..k + 1]), replacements)
  {
    var done := ProjectReach(a, namespaces[..k]);
    var refs := namespaces[k].items;
    var b := Rewritten(a, done, replacements);
    RewrittenOnlyKinds(a, done, replacements);
    ReachAllSameShape(a, b, refs, -1);
    DoneDisjoint(a, namespaces, k);
    RewrittenCompose(a, done, ReachAll(a, refs, -1), replacements);
    assert namespaces[..k + 1][..k] == namespaces[..k];
  }

  /** The subtrees of the namespaces before k share no item with those of namespace k. */
  lemma DoneDisjoint(a: seq<DocumentationItem>, namespaces: seq<NamespaceInfo>, k: nat)
    requires Forest(a) && ProjectRoots(a, namespaces) && k < |namespaces|
    ensures NamespacesAllocated(a, namespaces[..k])
    ensures forall x :: x in ProjectReach(a, namespaces[..k]) ==> x !in ReachAll(a, namespaces[k].items, -1)
  {
    var refs := namespaces[k].items;
    forall x | x in ProjectReach(a, namespaces[..k]) ensures x !in ReachAll(a, refs, -1) {
      ProjectReachMember(a, namespaces[..k], x);
      var k', j' :| 0 <= k' < k && 0 <= j' < |namespaces[..k][k'].items| && x in Reach(a, namespaces[..k][k'].items[j']);
      assert namespaces[..k][k'] == namespaces[k'];
      ReachAllMember(a, refs, -1, x);
      forall j | 0 <= j < |refs| ensures x !in Reach(a, refs[j]) {
        assert (k', j') != (k, j);
        SiblingsDisjoint(a, namespaces[k'].items[j'], refs[j], x);
      }
    }
  }

  // ---------------------------------------------------------------------------
  // The run as a value

  /** A tree with every item reclassified, each from its own kind and attributes. */
  function Relabel(t: Tree, replacements: seq<KindAttributeReplacement>): Tree
    decreases t
  {
    Tree(t.name, NewKind(t.kind, t.attributes, replacements), t.xmlComment, t.attributes, t.baseTypes,
      seq(|t.members|, k requires 0 <= k < |t.members| => Relabel(t.members[k], replacements)))
  }

  function RelabelNamespaces(namespaces: seq<NamespaceTrees>, replacements: seq<KindAttributeReplacement>): seq<NamespaceTrees> {
    seq(|namespaces|, k requires 0 <= k < |namespaces| =>
      namespaces[k].(items := seq(|namespaces[k].items|, j requires 0 <= j < |namespaces[k].items| =>
        Relabel(namespaces[k].items[j], replacements))))
  }

  /** With no replacements a tree stays as it is. */
  lemma {:induction false} RelabelEmpty(t: Tree)
    ensures Relabel(t, []) == t
    decreases t
  {
    forall k | 0 <= k < |t.members| ensures Relabel(t.members[k], []) == t.members[k] {
      RelabelEmpty(t.members[k]);
    }
  }

  /** Once every item of r's subtree was looked at, r's tree is its old tree
      relabelled: the shape, names, comments, attributes and base types are kept. */
  lemma {:induction false} TreeRewritten(a: seq<DocumentationItem>, r: ItemRef, visited: set<ItemRef>,
                                         replacements: seq<KindAttributeReplacement>)
    requires Forest(a) && r < |a| && Reach(a, r) <= visited
    ensures Closed(Rewritten(a, visited, replacements))
    ensures TreeOf(Rewritten(a, visited, replacements), r) == Relabel(TreeOf(a, r), replacements)
    decreases |a| - r
  {
    var b := Rewritten(a, visited, replacements);
    RewrittenOnlyKinds(a, visited, replacements);
    var ms := a[r].members;
    forall k | 0 <= k < |ms| ensures TreesOf(b, ms, r)[k] == Relabel(TreesOf(a, ms, r)[k], replacements) {
      TreesOfAt(a, ms, r, k);
      TreesOfAt(b, ms, r, k);
      ReachAllMember(a, ms, r, ms[k]);
      forall x | x in Reach(a, ms[k]) ensures x in visited {
        ReachAllMember(a, ms, r, x);
      }
      TreeRewritten(a, ms[k], visited, replacements);
    }
  }

  lemma {:induction false} ProjectReachContains(items: seq<DocumentationItem>, namespaces: seq<NamespaceInfo>, k: nat, j: nat)
    requires Closed(items) && NamespacesAllocated(items, namespaces)
    requires k < |namespaces| && j < |namespaces[k].items|
    ensures Reach(items, namespaces[k].items[j]) <= ProjectReach(items, namespaces)
    decreases |namespaces|
  {
    var last := |namespaces| - 1;
    if k == last {
      ReachAllMember(items, namespaces[last].items, -1, namespaces[k].items[j]);
      forall x | x in Reach(items, namespaces[k].items[j]) ensures x in ReachAll(items, namespaces[last].items, -1) {
        ReachAllMember(items, namespaces[last].items, -1, x);
      }
    } else {
      assert namespaces[..last][k] == namespaces[k];
      ProjectReachContains(items, namespaces[..last], k, j);
    }
  }

  /** Generate, read on the project's trees: every item of every namespace is
      relabelled, and nothing else about the project changes. */
  lemma GenerateTrees(a: seq<DocumentationItem>, namespaces: seq<NamespaceInfo>, replacements: seq<KindAttributeReplacement>)
    requires Forest(a) && ProjectRoots(a, namespaces)
    ensures Forest(Rewritten(a, ProjectReach(a, namespaces), replacements))
    ensures ProjectTrees(Rewritten(a, ProjectReach(a, namespaces), replacements), namespaces) ==
      RelabelNamespaces(ProjectTrees(a, namespaces), replacements)
  {
    var visited := ProjectReach(a, namespaces);
    var b := Rewritten(a, visited, replacements);
    RewrittenOnlyKinds(a, visited, replacements);
    forall k | 0 <= k < |namespaces|
      ensures TreesOf(b, namespaces[k].items, -1) == RelabelNamespaces(ProjectTrees(a, namespaces), replacements)[k].items
    {
      forall j | 0 <= j < |namespaces[k].items|
        ensures TreesOf(b, namespaces[k].items, -1)[j] == Relabel(TreesOf(a, namespaces[k].items, -1)[j], replacements)
      {
        TreesOfAt(a, namespaces[k].items, -1, j);
        TreesOfAt(b, namespaces[k].items, -1, j);
        ProjectReachContains(a, namespaces, k, j);
        TreeRewritten(a, namespaces[k].items[j], visited, replacements);
      }
    }
  }
}
