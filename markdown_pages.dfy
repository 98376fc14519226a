/** The page builder of the renderer: the order of items on a page, the kind
    groups, the table of contents, the text of a page and the files written for
    a project. The functions state the output; the class builds it the way the
    generator does, appending to a StringBuilder and writing files. */
module MarkdownPages {
  import opened Text
  import opened DocumentModel
  import opened Sorting
  import opened Xml
  import opened Output
  import opened MarkdownFormat
  import opened MarkdownXml

  /** The readonly fields of a MarkdownGenerator. */
  datatype Config = Config(
    writeTitle: bool,
    generateTableOfContents: bool,
    writeAttributes: bool,
    inlineClasses: bool,
    kindOrder: seq<string>,
    kindTemplates: seq<string>,
    kindTitles: seq<string>)

  /** The kinds that get a page (or an inline section) of their own. */
  const ClassKinds: seq<string> := ["class", "struct", "interface"]

  predicate IsClassKind(kind: string) {
    kind in ClassKinds
  }

  /** What the renderer relies on in the item graph the parser built: member
      references point to later items and parents to earlier ones. */
  ghost predicate Renderable(items: seq<DocumentationItem>) {
    Closed(items) && ParentsBelow(items)
  }

  predicate AllBelow(refs: seq<ItemRef>, n: int) {
    forall k :: 0 <= k < |refs| ==> refs[k] < n
  }

  predicate AllAbove(refs: seq<ItemRef>, lo: int) {
    forall k :: 0 <= k < |refs| ==> lo < refs[k]
  }

  /** Every ref of refs occurs in outer. */
  predicate Within(refs: seq<ItemRef>, outer: seq<ItemRef>) {
    forall k :: 0 <= k < |refs| ==> refs[k] in outer
  }

  /** The members of an item, and any refs drawn from them, lie above it. */
  lemma MembersAbove(items: seq<DocumentationItem>, r: ItemRef, refs: seq<ItemRef>)
    requires Closed(items) && r < |items| && Within(refs, items[r].members)
    ensures AllAbove(refs, r) && AllBelow(refs, |items|)
  {
    forall k | 0 <= k < |refs| ensures r < refs[k] < |items| {
      assert refs[k] in items[r].members;
      var j :| 0 <= j < |items[r].members| && items[r].members[j] == refs[k];
    }
  }

  // ---------------------------------------------------------------------------
  // Where, SortItems and the kind groups

  /** `refs.Where(m => classKinds.Contains(m.Kind))` when keep is true, the
      complementary filter when it is false; the order is kept. */
  function WhereClass(items: seq<DocumentationItem>, refs: seq<ItemRef>, keep: bool): (r: seq<ItemRef>)
    requires AllBelow(refs, |items|)
    ensures Within(r, refs) && AllBelow(r, |items|)
    ensures forall k :: 0 <= k < |r| ==> IsClassKind(items[r[k]].kind) == keep
    ensures forall k :: 0 <= k < |refs| && IsClassKind(items[refs[k]].kind) == keep ==> refs[k] in r
  {
    if refs == [] then []
    else
      var front := refs[..|refs| - 1];
      var last := refs[|refs| - 1];
      var r := WhereClass(items, front, keep) + (if IsClassKind(items[last].kind) == keep then [last] else []);
      assert forall k :: 0 <= k < |front| ==> front[k] == refs[k];
      r
  }

  /** The sort key of an item: the index of its kind in kindOrder (-1 for a
      kind that is not listed), then its name. */
  function ItemKey(items: seq<DocumentationItem>, kindOrder: seq<string>, r: ItemRef): SortKey
    requires r < |items|
  {
    SortKey(IndexOf(kindOrder, items[r].kind), items[r].name)
  }

  function Keyed(items: seq<DocumentationItem>, kindOrder: seq<string>, refs: seq<ItemRef>): (xs: seq<(SortKey, ItemRef)>)
    requires AllBelow(refs, |items|)
    ensures |xs| == |refs| && forall k :: 0 <= k < |refs| ==> xs[k] == (ItemKey(items, kindOrder, refs[k]), refs[k])
  {
    seq(|refs|, k requires 0 <= k < |refs| => (ItemKey(items, kindOrder, refs[k]), refs[k]))
  }

  /** SortItems: `OrderBy(kindOrder.IndexOf(Kind)).ThenBy(Name)`, a stable sort. */
  function SortItems(items: seq<DocumentationItem>, kindOrder: seq<string>, refs: seq<ItemRef>): (s: seq<ItemRef>)
    requires AllBelow(refs, |items|)
    ensures multiset(s) == multiset(refs) && Within(s, refs) && AllBelow(s, |items|)
  {
    var xs := Keyed(items, kindOrder, refs);
    SortByKeyValues(xs);
    assert Values(xs) == refs;
    var s := Values(SortByKey(xs));
    forall k | 0 <= k < |s| ensures s[k] in refs {
      assert s[k] in multiset(s);
    }
    s
  }

  /** Refs in order of ItemKey. */
  ghost predicate KeySorted(items: seq<DocumentationItem>, kindOrder: seq<string>, refs: seq<ItemRef>)
    requires AllBelow(refs, |items|)
  {
    forall i, j :: 0 <= i < j < |refs| ==> KeyLe(ItemKey(items, kindOrder, refs[i]), ItemKey(items, kindOrder, refs[j]))
  }

  /** SortItems orders by kind index, then by name; an unlisted kind (index -1)
      comes before every listed one; the result is a permutation of the input;
      items with equal keys keep their input order. */
  lemma SortItemsFacts(items: seq<DocumentationItem>, kindOrder: seq<string>, refs: seq<ItemRef>)
    requires AllBelow(refs, |items|)
    ensures var s := SortItems(items, kindOrder, refs);
      KeySorted(items, kindOrder, s) &&
      (forall i, j :: 0 <= i < j < |s| && items[s[i]].kind in kindOrder ==> items[s[j]].kind in kindOrder) &&
      multiset(s) == multiset(refs) &&
      (forall key :: KeyClass(SortByKey(Keyed(items, kindOrder, refs)), key) == KeyClass(Keyed(items, kindOrder, refs), key))
  {
    var xs := Keyed(items, kindOrder, refs);
    SortByKeyFacts(xs);
    SortedPairsKeyed(items, kindOrder, refs);
    var s := SortItems(items, kindOrder, refs);
    forall i, j | 0 <= i < j < |s| && items[s[i]].kind in kindOrder ensures items[s[j]].kind in kindOrder {
      assert KeyLe(ItemKey(items, kindOrder, s[i]), ItemKey(items, kindOrder, s[j]));
    }
  }

  /** The sorted pairs are the items' keys, so the values are sorted by ItemKey. */
  lemma SortedPairsKeyed(items: seq<DocumentationItem>, kindOrder: seq<string>, refs: seq<ItemRef>)
    requires AllBelow(refs, |items|)
    ensures KeySorted(items, kindOrder, SortItems(items, kindOrder, refs))
  {
    var xs := Keyed(items, kindOrder, refs);
    var ys: seq<(SortKey, ItemRef)> := SortByKey(xs);
    SortByKeyFacts(xs);
    forall k | 0 <= k < |ys| ensures ys[k].1 < |items| && ys[k].0 == ItemKey(items, kindOrder, ys[k].1) {
      assert ys[k] in multiset(ys);
      assert ys[k] in xs;
      var j :| 0 <= j < |xs| && xs[j] == ys[k];
    }
    var s := SortItems(items, kindOrder, refs);
    assert s == Values(ys);
    forall i, j | 0 <= i < j < |s| ensures KeyLe(ItemKey(items, kindOrder, s[i]), ItemKey(items, kindOrder, s[j])) {
      assert KeyLe(ys[i].0, ys[j].0);
    }
  }

  /** The distinct kinds of refs, in order of first appearance: the keys of
      `GroupBy(m => m.Kind)`. */
  function KindsOf(items: seq<DocumentationItem>, refs: seq<ItemRef>): (ks: seq<string>)
    requires AllBelow(refs, |items|)
    ensures forall i, j :: 0 <= i < j < |ks| ==> ks[i] != ks[j]
    ensures forall k :: 0 <= k < |refs| ==> items[refs[k]].kind in ks
  {
    if refs == [] then []
    else
      var front := refs[..|refs| - 1];
      var ks := KindsOf(items, front);
      var kind := items[refs[|refs| - 1]].kind;
      assert forall k :: 0 <= k < |front| ==> front[k] == refs[k];
      if kind in ks then ks else ks + [kind]
  }

  /** Every kind of KindsOf is the kind of some ref. */
  lemma {:induction false} KindsOfWitness(items: seq<DocumentationItem>, refs: seq<ItemRef>, i: nat)
    requires AllBelow(refs, |items|) && i < |KindsOf(items, refs)|
    ensures exists k :: 0 <= k < |refs| && items[refs[k]].kind == KindsOf(items, refs)[i]
  {
    var front := refs[..|refs| - 1];
    var ks := KindsOf(items, front);
    if i < |ks| {
      KindsOfWitness(items, front, i);
      var k :| 0 <= k < |front| && items[front[k]].kind == ks[i];
      assert front[k] == refs[k];
    } else {
      assert items[refs[|refs| - 1]].kind == KindsOf(items, refs)[i];
    }
  }

  /** The refs of one kind, in order: one group of GroupBy. */
  function OfKind(items: seq<DocumentationItem>, refs: seq<ItemRef>, kind: string): (r: seq<ItemRef>)
    requires AllBelow(refs, |items|)
    ensures Within(r, refs) && AllBelow(r, |items|)
    ensures forall k :: 0 <= k < |r| ==> items[r[k]].kind == kind
    ensures forall k :: 0 <= k < |refs| && items[refs[k]].kind == kind ==> refs[k] in r
  {
    if refs == [] then []
    else
      var front := refs[..|refs| - 1];
      var last := refs[|refs| - 1];
      var r := OfKind(items, front, kind) + (if items[last].kind == kind then [last] else []);
      assert forall k :: 0 <= k < |front| ==> front[k] == refs[k];
      r
  }

  /** `GroupBy(m => m.Kind)`: one group per kind, in order of first appearance. */
  function GroupByKind(items: seq<DocumentationItem>, refs: seq<ItemRef>): (gs: seq<(string, seq<ItemRef>)>)
    requires AllBelow(refs, |items|)
    ensures forall i :: 0 <= i < |gs| ==> AllBelow(gs[i].1, |items|)
  {
    var ks := KindsOf(items, refs);
    seq(|ks|, i requires 0 <= i < |ks| => (ks[i], OfKind(items, refs, ks[i])))
  }

  function GroupKey(kindOrder: seq<string>, g: (string, seq<ItemRef>)): SortKey {
    SortKey(IndexOf(kindOrder, g.0), "")
  }

  /** `OrderBy(g => kindOrder.IndexOf(g.Key))`, stable. */
  function OrderGroups(kindOrder: seq<string>, gs: seq<(string, seq<ItemRef>)>): seq<(string, seq<ItemRef>)> {
    Values(SortByKey(seq(|gs|, i requires 0 <= i < |gs| => (GroupKey(kindOrder, gs[i]), gs[i]))))
  }

  /** The members of a page that are not class kinds, sorted. */
  function SortedMembers(c: Config, items: seq<DocumentationItem>, members: seq<ItemRef>): (s: seq<ItemRef>)
    requires AllBelow(members, |items|)
    ensures AllBelow(s, |items|)
  {
    SortItems(items, c.kindOrder, WhereClass(items, members, false))
  }

  /** The member groups of a page: the members that are not class kinds,
      sorted, grouped by kind and ordered by kind index. */
  function MemberGroups(c: Config, items: seq<DocumentationItem>, members: seq<ItemRef>): (gs: seq<(string, seq<ItemRef>)>)
    requires AllBelow(members, |items|)
    ensures forall i :: 0 <= i < |gs| ==> AllBelow(gs[i].1, |items|)
  {
    GroupsInOrder(c, items, members);
    OrderGroups(c.kindOrder, GroupByKind(items, SortedMembers(c, items, members)))
  }

  /** The groups are those of GroupBy, unmoved by OrderBy since the members are
      already sorted by kind index; each holds the members of one kind that is
      not a class kind, in sorted order; no kind has two groups; every such
      member is in the group of its kind. */
  lemma MemberGroupsFacts(c: Config, items: seq<DocumentationItem>, members: seq<ItemRef>)
    requires AllBelow(members, |items|)
    ensures var s := SortedMembers(c, items, members);
      var gs := MemberGroups(c, items, members);
      gs == GroupByKind(items, s) &&
      (forall i :: 0 <= i < |gs| ==> !IsClassKind(gs[i].0) && gs[i].1 == OfKind(items, s, gs[i].0)) &&
      (forall i, j :: 0 <= i < j < |gs| ==> gs[i].0 != gs[j].0) &&
      (forall i, j :: 0 <= i < j < |gs| ==> IndexOf(c.kindOrder, gs[i].0) <= IndexOf(c.kindOrder, gs[j].0)) &&
      (forall k :: 0 <= k < |members| && !IsClassKind(items[members[k]].kind) ==>
        exists i :: 0 <= i < |gs| && gs[i].0 == items[members[k]].kind && members[k] in gs[i].1)
  {
    var s := SortedMembers(c, items, members);
    GroupsInOrder(c, items, members);
    GroupsNotClasses(c, items, members);
    GroupsComplete(c, items, members);
  }

  /** The groups come out of OrderBy as GroupBy made them, in kind index order. */
  lemma GroupsInOrder(c: Config, items: seq<DocumentationItem>, members: seq<ItemRef>)
    requires AllBelow(members, |items|)
    ensures var gs := GroupByKind(items, SortedMembers(c, items, members));
      OrderGroups(c.kindOrder, gs) == gs &&
      forall i, j :: 0 <= i < j < |gs| ==> IndexOf(c.kindOrder, gs[i].0) <= IndexOf(c.kindOrder, gs[j].0)
  {
    var w := WhereClass(items, members, false);
    var s := SortedMembers(c, items, members);
    SortedPairsKeyed(items, c.kindOrder, w);
    assert s == SortItems(items, c.kindOrder, w);
    KindIndexSorted(items, c.kindOrder, s);
    KindsInKeyOrder(items, c.kindOrder, s);
    GroupKinds(items, s);
    GroupsSorted(c.kindOrder, GroupByKind(items, s));
  }

  lemma GroupKinds(items: seq<DocumentationItem>, refs: seq<ItemRef>)
    requires AllBelow(refs, |items|)
    ensures var gs := GroupByKind(items, refs);
      var ks := KindsOf(items, refs);
      |gs| == |ks| && forall i :: 0 <= i < |gs| ==> gs[i].0 == ks[i] && gs[i].1 == OfKind(items, refs, ks[i])
  {
  }

  /** No group is of a class kind. */
  lemma GroupsNotClasses(c: Config, items: seq<DocumentationItem>, members: seq<ItemRef>)
    requires AllBelow(members, |items|)
    ensures var gs := GroupByKind(items, SortedMembers(c, items, members));
      forall i :: 0 <= i < |gs| ==> !IsClassKind(gs[i].0)
  {
    var w := WhereClass(items, members, false);
    var s := SortedMembers(c, items, members);
    assert forall k :: 0 <= k < |s| ==> !IsClassKind(items[s[k]].kind) by {
      forall k | 0 <= k < |s| ensures !IsClassKind(items[s[k]].kind) {
        assert s[k] in w;
        var p :| 0 <= p < |w| && w[p] == s[k];
      }
    }
    var gs := GroupByKind(items, s);
    GroupKinds(items, s);
    forall i | 0 <= i < |gs| ensures !IsClassKind(gs[i].0) {
      KindsOfWitness(items, s, i);
    }
  }

  /** Every member that is not a class kind is in the group of its kind. */
  lemma GroupsComplete(c: Config, items: seq<DocumentationItem>, members: seq<ItemRef>)
    requires AllBelow(members, |items|)
    ensures var gs := GroupByKind(items, SortedMembers(c, items, members));
      forall k :: 0 <= k < |members| && !IsClassKind(items[members[k]].kind) ==>
        exists i :: 0 <= i < |gs| && gs[i].0 == items[members[k]].kind && members[k] in gs[i].1
  {
    var w := WhereClass(items, members, false);
    var s := SortedMembers(c, items, members);
    var ks := KindsOf(items, s);
    var gs := GroupByKind(items, s);
    forall k | 0 <= k < |members| && !IsClassKind(items[members[k]].kind)
      ensures exists i :: 0 <= i < |gs| && gs[i].0 == items[members[k]].kind && members[k] in gs[i].1
    {
      var x := members[k];
      assert x in multiset(w);
      assert x in multiset(s);
      var p :| 0 <= p < |s| && s[p] == x;
      var i :| 0 <= i < |ks| && ks[i] == items[x].kind;
      assert gs[i].0 == items[x].kind && x in gs[i].1;
    }
  }

  /** Refs whose kinds appear in index order. */
  ghost predicate KindIndexOrdered(items: seq<DocumentationItem>, kindOrder: seq<string>, refs: seq<ItemRef>)
    requires AllBelow(refs, |items|)
  {
    forall i, j :: 0 <= i < j < |refs| ==> IndexOf(kindOrder, items[refs[i]].kind) <= IndexOf(kindOrder, items[refs[j]].kind)
  }

  lemma KindIndexSorted(items: seq<DocumentationItem>, kindOrder: seq<string>, refs: seq<ItemRef>)
    requires AllBelow(refs, |items|) && KeySorted(items, kindOrder, refs)
    ensures KindIndexOrdered(items, kindOrder, refs)
  {
    forall i, j | 0 <= i < j < |refs| ensures IndexOf(kindOrder, items[refs[i]].kind) <= IndexOf(kindOrder, items[refs[j]].kind) {
      assert KeyLe(ItemKey(items, kindOrder, refs[i]), ItemKey(items, kindOrder, refs[j]));
    }
  }

  /** Kinds in order of their index in kindOrder. */
  ghost predicate KindsSorted(kindOrder: seq<string>, ks: seq<string>) {
    forall i, j :: 0 <= i < j < |ks| ==> IndexOf(kindOrder, ks[i]) <= IndexOf(kindOrder, ks[j])
  }

  /** No kind of ks has an index above bound. */
  ghost predicate KindsAtMost(kindOrder: seq<string>, ks: seq<string>, bound: int) {
    forall i :: 0 <= i < |ks| ==> IndexOf(kindOrder, ks[i]) <= bound
  }

  lemma KindsSortedSnoc(kindOrder: seq<string>, ks: seq<string>, kind: string)
    requires KindsSorted(kindOrder, ks) && KindsAtMost(kindOrder, ks, IndexOf(kindOrder, kind))
    ensures KindsSorted(kindOrder, ks + [kind]) && KindsAtMost(kindOrder, ks + [kind], IndexOf(kindOrder, kind))
  {
    var all := ks + [kind];
    forall i, j | 0 <= i < j < |all| ensures IndexOf(kindOrder, all[i]) <= IndexOf(kindOrder, all[j]) {
      assert all[i] == ks[i];
      if j < |ks| {
        assert all[j] == ks[j];
      } else {
        assert all[j] == kind;
      }
    }
    forall i | 0 <= i < |all| ensures IndexOf(kindOrder, all[i]) <= IndexOf(kindOrder, kind) {
      if i < |ks| {
        assert all[i] == ks[i];
      }
    }
  }

  /** Over refs in kind index order, the distinct kinds appear in index order,
      none after the kind of the last ref. */
  lemma {:induction false} KindsInKeyOrder(items: seq<DocumentationItem>, kindOrder: seq<string>, refs: seq<ItemRef>)
    requires AllBelow(refs, |items|) && KindIndexOrdered(items, kindOrder, refs)
    ensures KindsSorted(kindOrder, KindsOf(items, refs))
    ensures refs != [] ==> KindsAtMost(kindOrder, KindsOf(items, refs), IndexOf(kindOrder, items[refs[|refs| - 1]].kind))
  {
    if refs != [] {
      var front := refs[..|refs| - 1];
      var last := refs[|refs| - 1];
      assert KindIndexOrdered(items, kindOrder, front) by {
        forall i, j | 0 <= i < j < |front|
          ensures IndexOf(kindOrder, items[front[i]].kind) <= IndexOf(kindOrder, items[front[j]].kind)
        {
          assert front[i] == refs[i] && front[j] == refs[j];
        }
      }
      KindsInKeyOrder(items, kindOrder, front);
      var ks := KindsOf(items, front);
      var kind := items[last].kind;
      var bound := IndexOf(kindOrder, kind);
      if front != [] {
        var prev := front[|front| - 1];
        assert prev == refs[|refs| - 2];
        assert KindsAtMost(kindOrder, ks, IndexOf(kindOrder, items[prev].kind));
        assert IndexOf(kindOrder, items[prev].kind) <= bound;
      }
      assert KindsAtMost(kindOrder, ks, bound);
      if kind !in ks {
        KindsSortedSnoc(kindOrder, ks, kind);
      }
    }
  }

  /** Groups whose kinds are in index order are not moved by OrderGroups. */
  lemma GroupsSorted(kindOrder: seq<string>, gs: seq<(string, seq<ItemRef>)>)
    requires forall i, j :: 0 <= i < j < |gs| ==> IndexOf(kindOrder, gs[i].0) <= IndexOf(kindOrder, gs[j].0)
    ensures OrderGroups(kindOrder, gs) == gs
  {
    var xs := seq(|gs|, i requires 0 <= i < |gs| => (GroupKey(kindOrder, gs[i]), gs[i]));
    forall i, j | 0 <= i < j < |xs| ensures KeyLe(xs[i].0, xs[j].0) {
      if xs[i].0.index == xs[j].0.index {
        OrdinalReflexive("");
      }
    }
    SortByKeySorted(xs);
    assert Values(xs) == gs;
  }

  // ---------------------------------------------------------------------------
  // The members of a page

  lemma WithinTrans(a: seq<ItemRef>, b: seq<ItemRef>, c: seq<ItemRef>)
    requires Within(a, b) && Within(b, c)
    ensures Within(a, c)
  {
    forall k | 0 <= k < |a| ensures a[k] in c {
      var j :| 0 <= j < |b| && b[j] == a[k];
    }
  }

  /** The members of an allocated item are allocated after it. */
  lemma OwnMembers(items: seq<DocumentationItem>, r: ItemRef)
    requires Closed(items) && r < |items|
    ensures AllAbove(items[r].members, r) && AllBelow(items[r].members, |items|)
  {
    MembersAbove(items, r, items[r].members);
  }

  /** `SortItems(item.Members.Where(m => classKinds.Contains(m.Kind)))`: the
      nested types of a page, each allocated after it. */
  function NestedClasses(c: Config, items: seq<DocumentationItem>, r: ItemRef): (nc: seq<ItemRef>)
    requires Closed(items) && r < |items|
    ensures AllAbove(nc, r) && AllBelow(nc, |items|)
    ensures forall k :: 0 <= k < |nc| ==> IsClassKind(items[nc[k]].kind)
  {
    OwnMembers(items, r);
    var w := WhereClass(items, items[r].members, true);
    var nc := SortItems(items, c.kindOrder, w);
    WithinTrans(nc, w, items[r].members);
    MembersAbove(items, r, nc);
    forall k | 0 <= k < |nc| ensures IsClassKind(items[nc[k]].kind) {
      var j :| 0 <= j < |w| && w[j] == nc[k];
    }
    nc
  }

  // ---------------------------------------------------------------------------
  // The Markdown of one item

  /** `*Attribute*` lines, one per attribute, in order. */
  function AttributeLines(attributes: seq<AttributeInfo>): string {
    if attributes == [] then ""
    else AttributeLines(attributes[..|attributes| - 1]) + Line("*" + FormatAttribute(attributes[|attributes| - 1]) + "*")
  }

  /** What the comment's XML contributes: its elements' Markdown, or the
      error line with the raw comment when it does not parse. */
  function CommentText(parsed: XmlParse, comment: string, level: nat): string {
    match parsed
    case Parsed(root) => CommentMarkdown(Nodes(root), level)
    case XmlError(_) => Line("Error parsing XML comment: " + comment)
  }

  /** GenerateItemMarkdown: nothing for a blank comment; otherwise the
      attribute lines (when enabled and present) and the comment's Markdown. */
  function ItemMarkdown(c: Config, parse: string -> XmlParse, item: DocumentationItem, level: nat): string {
    if IsBlank(item.xmlComment) then ""
    else
      (if c.writeAttributes && item.attributes != [] then AttributeLines(item.attributes) + NewLine else "")
      + CommentText(parse("<root>" + item.xmlComment + "</root>"), item.xmlComment, level)
  }

  /** An item without documentation contributes nothing, not even its
      attributes; a documented item whose comment does not parse ends with the
      error line quoting the comment, and writes no element Markdown. */
  lemma ItemMarkdownCases(c: Config, parse: string -> XmlParse, item: DocumentationItem, level: nat)
    ensures IsBlank(item.xmlComment) ==> ItemMarkdown(c, parse, item, level) == ""
    ensures !IsBlank(item.xmlComment) && (!c.writeAttributes || item.attributes == []) ==>
      ItemMarkdown(c, parse, item, level) == CommentText(parse("<root>" + item.xmlComment + "</root>"), item.xmlComment, level)
    ensures !IsBlank(item.xmlComment) && parse("<root>" + item.xmlComment + "</root>").XmlError? ==>
      var text := ItemMarkdown(c, parse, item, level);
      var error := Line("Error parsing XML comment: " + item.xmlComment);
      |error| <= |text| && text[|text| - |error|..] == error
  {
  }

  // ---------------------------------------------------------------------------
  // The table of contents

  /** `[kind name](#kind-anchor-name-anchor)`: a link to a heading of the page. */
  function EntryLink(item: DocumentationItem): string {
    "[" + item.kind + " " + item.name + "](#" + FormatAnchor(item.kind) + "-" + FormatAnchor(item.name) + ")"
  }

  /** The indented entries of the members that are not class kinds. */
  function MemberEntries(items: seq<DocumentationItem>, refs: seq<ItemRef>): string
    requires AllBelow(refs, |items|)
  {
    if refs == [] then ""
    else MemberEntries(items, refs[..|refs| - 1]) + Line("  - " + EntryLink(items[refs[|refs| - 1]]))
  }

  /** The link target the generator writes for a nested type's page:
      `FormatFileName(item.Name)-FormatFileName(nested.Name)`. */
  function PageLinkTarget(pageName: string, nestedName: string): string {
    FormatFileName(pageName) + "-" + FormatFileName(nestedName)
  }

  /** The entries that link to the nested types' own pages. */
  function PageLinks(items: seq<DocumentationItem>, pageName: string, refs: seq<ItemRef>): string
    requires AllBelow(refs, |items|)
  {
    if refs == [] then ""
    else
      var n := items[refs[|refs| - 1]];
      PageLinks(items, pageName, refs[..|refs| - 1]) +
      Line("- [" + n.kind + " " + n.name + "](" + PageLinkTarget(pageName, n.name) + ".md)")
  }

  /** GenerateTableOfContents: the item's own entry, its other members, then
      either each nested type's entry followed by the nested type's whole
      table (whose first line repeats that entry) or links to their pages. */
  function Toc(c: Config, items: seq<DocumentationItem>, r: ItemRef): string
    requires Closed(items) && r < |items|
    decreases |items| - r, 2
  {
    Line("- " + EntryLink(items[r])) + TocBody(c, items, r)
  }

  /** The lines of a table of contents after the item's own entry. */
  function TocBody(c: Config, items: seq<DocumentationItem>, r: ItemRef): string
    requires Closed(items) && r < |items|
    decreases |items| - r, 1
  {
    OwnMembers(items, r);
    var members := SortItems(items, c.kindOrder, items[r].members);
    MembersAbove(items, r, members);
    var nested := WhereClass(items, members, true);
    WithinTrans(nested, members, items[r].members);
    MembersAbove(items, r, nested);
    MemberEntries(items, WhereClass(items, members, false))
    + (if c.inlineClasses then InlineToc(c, items, nested, r) else PageLinks(items, items[r].name, nested))
  }

  function InlineToc(c: Config, items: seq<DocumentationItem>, refs: seq<ItemRef>, lo: int): string
    requires Closed(items) && AllAbove(refs, lo) && AllBelow(refs, |items|)
    decreases |items| - lo, 0, |refs|
  {
    if refs == [] then ""
    else
      var last := refs[|refs| - 1];
      assert AllAbove(refs[..|refs| - 1], lo);
      InlineToc(c, items, refs[..|refs| - 1], lo) + Line("- " + EntryLink(items[last])) + Toc(c, items, last)
  }

  /** With inline classes, each nested type's entry is written twice in a row:
      once by the loop and once as the first line of its own table. */
  lemma InlineEntryTwice(c: Config, items: seq<DocumentationItem>, refs: seq<ItemRef>, lo: int)
    requires Closed(items) && AllAbove(refs, lo) && AllBelow(refs, |items|) && refs != []
    ensures TwiceAt(InlineToc(c, items, refs, lo), |InlineToc(c, items, refs[..|refs| - 1], lo)|,
      Line("- " + EntryLink(items[refs[|refs| - 1]])))
  {
    var last := refs[|refs| - 1];
    var entry := Line("- " + EntryLink(items[last]));
    var before := InlineToc(c, items, refs[..|refs| - 1], lo);
    var toc := Toc(c, items, last);
    assert toc == entry + TocBody(c, items, last);
    var text := InlineToc(c, items, refs, lo);
    assert text == before + entry + toc;
    Slices(text, before, entry, toc, TocBody(c, items, last));
  }

  /** text holds entry twice in a row, starting at position at. */
  predicate TwiceAt(text: string, at: nat, entry: string) {
    at + 2 * |entry| <= |text| &&
    text[at..at + |entry|] == entry &&
    text[at + |entry|..at + 2 * |entry|] == entry
  }

  lemma Slices(text: string, before: string, entry: string, toc: string, rest: string)
    requires toc == entry + rest && text == before + entry + toc
    ensures TwiceAt(text, |before|, entry)
  {
    assert text == before + entry + entry + rest;
  }

  // ---------------------------------------------------------------------------
  // The page of an item

  /** A kind group's `## title` heading, written only when the kind's index is
      within kindTitles. */
  function KindHeading(c: Config, kind: string): string {
    var kindIndex := IndexOf(c.kindOrder, kind);
    if 0 <= kindIndex < |c.kindTitles| then Line("## " + c.kindTitles[kindIndex]) + NewLine else ""
  }

  /** One member of a group: its `###` heading and its Markdown at level 3. */
  function MemberText(c: Config, parse: string -> XmlParse, item: DocumentationItem): string {
    Line("### " + FormatName(item.name, item.kind, c.kindOrder, c.kindTemplates)) + NewLine + ItemMarkdown(c, parse, item, 3)
  }

  function MembersText(c: Config, parse: string -> XmlParse, items: seq<DocumentationItem>, refs: seq<ItemRef>): string
    requires AllBelow(refs, |items|)
  {
    if refs == [] then ""
    else MembersText(c, parse, items, refs[..|refs| - 1]) + MemberText(c, parse, items[refs[|refs| - 1]])
  }

  function GroupsText(c: Config, parse: string -> XmlParse, items: seq<DocumentationItem>, gs: seq<(string, seq<ItemRef>)>): string
    requires forall i :: 0 <= i < |gs| ==> AllBelow(gs[i].1, |items|)
  {
    if gs == [] then ""
    else
      var g := gs[|gs| - 1];
      GroupsText(c, parse, items, gs[..|gs| - 1]) + KindHeading(c, g.0) + MembersText(c, parse, items, g.1)
  }

  /** One inlined nested type: its `##` heading and its Markdown at level 2. */
  function InlineSection(c: Config, parse: string -> XmlParse, item: DocumentationItem): string {
    Line("## " + FormatName(item.name, item.kind, c.kindOrder, c.kindTemplates)) + NewLine + ItemMarkdown(c, parse, item, 2)
  }

  function InlineSections(c: Config, parse: string -> XmlParse, items: seq<DocumentationItem>, refs: seq<ItemRef>): string
    requires AllBelow(refs, |items|)
  {
    if refs == [] then ""
    else InlineSections(c, parse, items, refs[..|refs| - 1]) + InlineSection(c, parse, items[refs[|refs| - 1]])
  }

  /** The `#` title with the item's full name and a blank line, when enabled. */
  function TitleText(c: Config, items: seq<DocumentationItem>, r: ItemRef): string
    requires ParentsBelow(items) && r < |items|
  {
    if c.writeTitle then Line("# " + FullName(items, r)) + NewLine else ""
  }

  /** The `## Table of Contents` heading, the table and a blank line, when enabled. */
  function TocText(c: Config, items: seq<DocumentationItem>, r: ItemRef): string
    requires Closed(items) && r < |items|
  {
    if c.generateTableOfContents then Line("## Table of Contents") + Toc(c, items, r) + NewLine else ""
  }

  /** The sections of the nested types, when classes are inlined. */
  function InlineText(c: Config, parse: string -> XmlParse, items: seq<DocumentationItem>, r: ItemRef): string
    requires Closed(items) && r < |items|
  {
    if c.inlineClasses then InlineSections(c, parse, items, NestedClasses(c, items, r)) else ""
  }

  /** The title, the table of contents, the item's Markdown, the member groups
      and, with inline classes, the nested types' sections. */
  function PageText(c: Config, parse: string -> XmlParse, items: seq<DocumentationItem>, r: ItemRef): string
    requires Renderable(items) && r < |items|
  {
    OwnMembers(items, r);
    TitleText(c, items, r) + TocText(c, items, r) + ItemMarkdown(c, parse, items[r], 2)
    + GroupsText(c, parse, items, MemberGroups(c, items, items[r].members)) + InlineText(c, parse, items, r)
  }

  // ---------------------------------------------------------------------------
  // The files of a project

  /** The file name of a page: the matches of the parent's file name and the
      item's name, or of the name alone at the top of a namespace. */
  function FileName(parentName: string, name: string): string {
    FormatFileName(if parentName != "" then parentName + "-" + name else name)
  }

  /** `Path.Combine(folder, $"{fileName}.md")`. */
  function PagePath(folder: string, fileName: string): string {
    PathCombine([folder, fileName + ".md"])
  }

  /** GenerateItemMarkdownFile: no file for an item without a name (nor for
      anything nested in it); otherwise the item's page, then, unless classes
      are inlined, the pages of its nested types in sorted order. */
  function PageWrites(c: Config, parse: string -> XmlParse, items: seq<DocumentationItem>, r: ItemRef, folder: string, parentName: string): seq<(string, string)>
    requires Renderable(items) && r < |items|
    decreases |items| - r, 1
  {
    if items[r].name == "" then []
    else
      var fileName := FileName(parentName, items[r].name);
      [(PagePath(folder, fileName), PageText(c, parse, items, r))]
      + (if c.inlineClasses then [] else NestedWrites(c, parse, items, NestedClasses(c, items, r), r, folder, fileName))
  }

  function NestedWrites(c: Config, parse: string -> XmlParse, items: seq<DocumentationItem>, refs: seq<ItemRef>, lo: int, folder: string, parentName: string): seq<(string, string)>
    requires Renderable(items) && AllAbove(refs, lo) && AllBelow(refs, |items|)
    decreases |items| - lo, 0, |refs|
  {
    if refs == [] then []
    else
      assert AllAbove(refs[..|refs| - 1], lo);
      NestedWrites(c, parse, items, refs[..|refs| - 1], lo, folder, parentName) + PageWrites(c, parse, items, refs[|refs| - 1], folder, parentName)
  }

  /** The folder of a namespace's pages: package, then one folder per dotted part. */
  function NamespaceFolder(outputFolder: string, ns: NamespaceInfo): string {
    PathCombine([outputFolder, ns.packageName, FormatDirectoryName(ns.directory)])
  }

  /** Every namespace folder lies under a non-empty output folder, whatever the
      package name. */
  lemma NamespaceFolderUnderOutput(outputFolder: string, ns: NamespaceInfo)
    requires outputFolder != ""
    ensures |NamespaceFolder(outputFolder, ns)| >= |outputFolder|
    ensures NamespaceFolder(outputFolder, ns)[..|outputFolder|] == outputFolder
  {
    var rest := [ns.packageName, FormatDirectoryName(ns.directory)];
    assert [outputFolder] + rest == [outputFolder, ns.packageName, FormatDirectoryName(ns.directory)];
    PathCombineUnderFolder(outputFolder, rest);
  }

  /** GenerateMarkdown: for each namespace in order, the pages of its
      top-level items in sorted order. */
  function ProjectWrites(c: Config, parse: string -> XmlParse, items: seq<DocumentationItem>, namespaces: seq<NamespaceInfo>, outputFolder: string): seq<(string, string)>
    requires Renderable(items) && NamespacesAllocated(items, namespaces)
  {
    if namespaces == [] then []
    else
      var ns := namespaces[|namespaces| - 1];
      assert NamespacesAllocated(items, namespaces[..|namespaces| - 1]);
      assert AllBelow(ns.items, |items|);
      ProjectWrites(c, parse, items, namespaces[..|namespaces| - 1], outputFolder) + NamespaceWrites(c, parse, items, ns, outputFolder)
  }

  /** The pages of one namespace: those of its top-level items, sorted. */
  function NamespaceWrites(c: Config, parse: string -> XmlParse, items: seq<DocumentationItem>, ns: NamespaceInfo, outputFolder: string): seq<(string, string)>
    requires Renderable(items) && AllBelow(ns.items, |items|)
  {
    NestedWrites(c, parse, items, SortItems(items, c.kindOrder, ns.items), -1, NamespaceFolder(outputFolder, ns), "")
  }

  lemma AllocatedParts(items: seq<DocumentationItem>, a: seq<NamespaceInfo>, b: seq<NamespaceInfo>)
    requires NamespacesAllocated(items, a + b)
    ensures NamespacesAllocated(items, a) && NamespacesAllocated(items, b)
  {
    forall k, j | 0 <= k < |a| && 0 <= j < |a[k].items| ensures a[k].items[j] < |items| {
      assert (a + b)[k] == a[k];
    }
    forall k, j | 0 <= k < |b| && 0 <= j < |b[k].items| ensures b[k].items[j] < |items| {
      assert (a + b)[|a| + k] == b[k];
    }
  }

  // ---------------------------------------------------------------------------
  // Where the table of contents links to

  /** A non-empty list of matches joins into a non-empty name. */
  lemma JoinNonEmpty(ts: seq<string>)
    requires ts != [] && forall k :: 0 <= k < |ts| ==> IsToken(ts[k])
    ensures |Join("-", ts)| >= |ts[0]| >= 1
  {
  }

  /** On the page of a top-level item, the link to a nested type's page is the
      file name that page is written under (when both names have matches). */
  lemma TopLevelLinkIsFileName(pageName: string, nestedName: string)
    requires Tokens(pageName) != [] && Tokens(nestedName) != []
    ensures PageLinkTarget(pageName, nestedName) == FileName(FileName("", pageName), nestedName)
  {
    TokensAreTokens(pageName);
    JoinNonEmpty(Tokens(pageName));
    NestedFileName(pageName, nestedName);
    JoinAppend("-", Tokens(pageName), Tokens(nestedName));
  }

  /** One level further down the link misses: the page of a nested type's
      nested type is written under the parent-prefixed name, while the link
      names only the page's own item. */
  lemma DeepLinkMissesFileName(parentName: string, pageName: string, nestedName: string)
    requires Tokens(parentName) != [] && Tokens(pageName) != [] && Tokens(nestedName) != []
    ensures PageLinkTarget(pageName, nestedName) != FileName(FileName(parentName, pageName), nestedName)
  {
    var p, m, n := Tokens(parentName), Tokens(pageName), Tokens(nestedName);
    TokensAreTokens(parentName);
    TokensAreTokens(pageName);
    TokensAreTokens(nestedName);
    JoinNonEmpty(p);
    var both := parentName + "-" + pageName;
    TokensSeparator(parentName, '-', pageName);
    assert both == parentName + ['-'] + pageName;
    NestedFileName(both, nestedName);
    assert FileName(parentName, pageName) == FormatFileName(both);
    JoinNonEmpty(p + m);
    assert FileName(FileName(parentName, pageName), nestedName) == Join("-", p + m + n);
    JoinAppend("-", p + m, n);
    JoinAppend("-", p, m);
    JoinAppend("-", m, n);
    assert |Join("-", p + m + n)| == |Join("-", p)| + 1 + |PageLinkTarget(pageName, nestedName)|;
  }

  // ---------------------------------------------------------------------------
  // What the writes contain

  /** Every write goes to a `.md` file directly in folder. */
  ghost predicate InFolder(ws: seq<(string, string)>, folder: string) {
    forall k :: 0 <= k < |ws| ==> IsPagePath(ws[k].0, folder)
  }

  ghost predicate IsPagePath(path: string, folder: string) {
    exists fileName :: path == PagePath(folder, fileName)
  }

  lemma InFolderAppend(a: seq<(string, string)>, b: seq<(string, string)>, folder: string)
    requires InFolder(a, folder) && InFolder(b, folder)
    ensures InFolder(a + b, folder)
  {
    forall k | 0 <= k < |a + b| ensures IsPagePath((a + b)[k].0, folder) {
      if k < |a| {
        assert (a + b)[k] == a[k];
      } else {
        assert (a + b)[k] == b[k - |a|];
      }
    }
  }

  /** Every page of an item's subtree goes to the same folder as a `.md` file. */
  lemma {:induction false} PagesInFolder(c: Config, parse: string -> XmlParse, items: seq<DocumentationItem>, r: ItemRef, folder: string, parentName: string)
    requires Renderable(items) && r < |items|
    ensures InFolder(PageWrites(c, parse, items, r, folder, parentName), folder)
    decreases |items| - r, 1
  {
    if items[r].name != "" {
      var fileName := FileName(parentName, items[r].name);
      var page := [(PagePath(folder, fileName), PageText(c, parse, items, r))];
      OnePageInFolder(folder, fileName, PageText(c, parse, items, r));
      if c.inlineClasses {
        assert PageWrites(c, parse, items, r, folder, parentName) == page;
      } else {
        var nested := NestedWrites(c, parse, items, NestedClasses(c, items, r), r, folder, fileName);
        NestedPagesInFolder(c, parse, items, NestedClasses(c, items, r), r, folder, fileName);
        InFolderAppend(page, nested, folder);
        assert PageWrites(c, parse, items, r, folder, parentName) == page + nested;
      }
    }
  }

  lemma OnePageInFolder(folder: string, fileName: string, text: string)
    ensures InFolder([(PagePath(folder, fileName), text)], folder)
  {
    assert IsPagePath(PagePath(folder, fileName), folder);
  }

  lemma {:induction false} NestedPagesInFolder(c: Config, parse: string -> XmlParse, items: seq<DocumentationItem>, refs: seq<ItemRef>, lo: int, folder: string, parentName: string)
    requires Renderable(items) && AllAbove(refs, lo) && AllBelow(refs, |items|)
    ensures InFolder(NestedWrites(c, parse, items, refs, lo, folder, parentName), folder)
    decreases |items| - lo, 0, |refs|
  {
    if refs != [] {
      var front := refs[..|refs| - 1];
      assert AllAbove(front, lo);
      NestedPagesInFolder(c, parse, items, front, lo, folder, parentName);
      PagesInFolder(c, parse, items, refs[|refs| - 1], folder, parentName);
      InFolderAppend(NestedWrites(c, parse, items, front, lo, folder, parentName),
        PageWrites(c, parse, items, refs[|refs| - 1], folder, parentName), folder);
    }
  }

  /** The page of each named nested type is among the writes of its siblings' list. */
  lemma {:induction false} NestedWritesContain(c: Config, parse: string -> XmlParse, items: seq<DocumentationItem>, refs: seq<ItemRef>, lo: int, folder: string, parentName: string, k: nat)
    requires Renderable(items) && AllAbove(refs, lo) && AllBelow(refs, |items|)
    requires k < |refs| && items[refs[k]].name != ""
    ensures (PathCombine([folder, FileName(parentName, items[refs[k]].name) + ".md"]), PageText(c, parse, items, refs[k]))
      in NestedWrites(c, parse, items, refs, lo, folder, parentName)
  {
    var front := refs[..|refs| - 1];
    assert AllAbove(front, lo);
    if k < |refs| - 1 {
      assert front[k] == refs[k];
      NestedWritesContain(c, parse, items, front, lo, folder, parentName, k);
    }
  }

  /** On a top-level page with linked classes, every link to a nested type's
      page names a page that is written in the same folder. */
  lemma TopLevelLinksResolve(c: Config, parse: string -> XmlParse, items: seq<DocumentationItem>, r: ItemRef, folder: string, k: nat)
    requires Renderable(items) && r < |items| && !c.inlineClasses
    requires k < |NestedClasses(c, items, r)|
    requires Tokens(items[r].name) != [] && Tokens(items[NestedClasses(c, items, r)[k]].name) != []
    ensures var n := NestedClasses(c, items, r)[k];
      (PathCombine([folder, PageLinkTarget(items[r].name, items[n].name) + ".md"]), PageText(c, parse, items, n))
        in PageWrites(c, parse, items, r, folder, "")
  {
    var nested := NestedClasses(c, items, r);
    var n := nested[k];
    TopLevelLinkIsFileName(items[r].name, items[n].name);
    assert items[r].name != "" && items[n].name != "";
    NestedWritesContain(c, parse, items, nested, r, folder, FileName("", items[r].name), k);
  }

  /** Rendering the namespaces of several folders one after another writes
      the pages of each in turn. */
  lemma {:induction false} ProjectWritesAppend(c: Config, parse: string -> XmlParse, items: seq<DocumentationItem>, a: seq<NamespaceInfo>, b: seq<NamespaceInfo>, outputFolder: string)
    requires Renderable(items) && NamespacesAllocated(items, a + b)
    ensures NamespacesAllocated(items, a) && NamespacesAllocated(items, b)
    ensures ProjectWrites(c, parse, items, a + b, outputFolder) ==
      ProjectWrites(c, parse, items, a, outputFolder) + ProjectWrites(c, parse, items, b, outputFolder)
    decreases |b|
  {
    AllocatedParts(items, a, b);
    if b == [] {
      assert a + b == a;
      assert ProjectWrites(c, parse, items, a, outputFolder) + [] == ProjectWrites(c, parse, items, a, outputFolder);
    } else {
      var front := b[..|b| - 1];
      var last := b[|b| - 1];
      assert (a + b)[..|a + b| - 1] == a + front;
      assert (a + b)[|a + b| - 1] == last;
      AllocatedParts(items, a + front, [last]);
      AllocatedParts(items, front, [last]);
      assert AllBelow(last.items, |items|) by {
        assert [last][0] == last;
      }
      ProjectWritesAppend(c, parse, items, a, front, outputFolder);
      AppendAssoc(ProjectWrites(c, parse, items, a, outputFolder), ProjectWrites(c, parse, items, front, outputFolder),
        NamespaceWrites(c, parse, items, last, outputFolder));
    }
  }

  // ---------------------------------------------------------------------------
  // The generator

  /** ProjectWrites of one more namespace. */
  lemma ProjectWritesSnoc(c: Config, parse: string -> XmlParse, items: seq<DocumentationItem>, namespaces: seq<NamespaceInfo>, k: nat, outputFolder: string)
    requires Renderable(items) && NamespacesAllocated(items, namespaces) && k < |namespaces|
    ensures NamespacesAllocated(items, namespaces[..k]) && NamespacesAllocated(items, namespaces[..k + 1])
    ensures AllBelow(namespaces[k].items, |items|)
    ensures ProjectWrites(c, parse, items, namespaces[..k + 1], outputFolder) ==
      ProjectWrites(c, parse, items, namespaces[..k], outputFolder) + NamespaceWrites(c, parse, items, namespaces[k], outputFolder)
  {
    assert namespaces == namespaces[..k + 1] + namespaces[k + 1..];
    AllocatedParts(items, namespaces[..k + 1], namespaces[k + 1..]);
    assert namespaces[..k + 1] == namespaces[..k] + [namespaces[k]];
    AllocatedParts(items, namespaces[..k], [namespaces[k]]);
    assert namespaces[..k + 1][..k] == namespaces[..k];
  }

  /** NestedWrites of one more sibling. */
  lemma NestedWritesSnoc(c: Config, parse: string -> XmlParse, items: seq<DocumentationItem>, refs: seq<ItemRef>, i: nat, lo: int, folder: string, parentName: string)
    requires Renderable(items) && AllAbove(refs, lo) && AllBelow(refs, |items|) && i < |refs|
    ensures AllAbove(refs[..i], lo) && AllAbove(refs[..i + 1], lo)
    ensures NestedWrites(c, parse, items, refs[..i + 1], lo, folder, parentName) ==
      NestedWrites(c, parse, items, refs[..i], lo, folder, parentName) + PageWrites(c, parse, items, refs[i], folder, parentName)
  {
    assert refs[..i + 1][..i] == refs[..i];
  }

  /** A MarkdownGenerator: its settings and the XML parser it hands comments to. */
  class MarkdownGenerator {
    const config: Config
    const parseXml: string -> XmlParse

    constructor(writeTitle: bool, generateTableOfContents: bool, writeAttributes: bool, inlineClasses: bool,
                kindOrder: seq<string>, kindTemplates: seq<string>, kindTitles: seq<string>, parseXml: string -> XmlParse)
      ensures config == Config(writeTitle, generateTableOfContents, writeAttributes, inlineClasses, kindOrder, kindTemplates, kindTitles)
      ensures this.parseXml == parseXml
    {
      config := Config(writeTitle, generateTableOfContents, writeAttributes, inlineClasses, kindOrder, kindTemplates, kindTitles);
      this.parseXml := parseXml;
    }

    /** GenerateMarkdown: writes the pages of every namespace of the project. */
    method GenerateMarkdown(project: DocumentationProject, heap: Heap, outputFolder: string, fs: FileSystem)
      requires Renderable(heap.items) && NamespacesAllocated(heap.items, project.namespaces)
      modifies fs
      ensures fs.files == ApplyWrites(old(fs.files), ProjectWrites(config, parseXml, heap.items, project.namespaces, outputFolder))
    {
      var items := heap.items;
      var namespaces := project.namespaces;
      ghost var start := fs.files;
      for k := 0 to |namespaces|
        invariant fs.files == ApplyWrites(start, ProjectWrites(config, parseXml, items, namespaces[..k], outputFolder))
      {
        ghost var done := ProjectWrites(config, parseXml, items, namespaces[..k], outputFolder);
        ProjectWritesSnoc(config, parseXml, items, namespaces, k, outputFolder);
        GenerateNamespace(items, namespaces[k], outputFolder, fs);
        ApplyWritesAppend(start, done, NamespaceWrites(config, parseXml, items, namespaces[k], outputFolder));
      }
      assert namespaces[..|namespaces|] == namespaces;
    }

    /** One namespace of GenerateMarkdown: the pages of its top-level items, sorted. */
    method GenerateNamespace(items: seq<DocumentationItem>, namespaceInfo: NamespaceInfo, outputFolder: string, fs: FileSystem)
      requires Renderable(items) && AllBelow(namespaceInfo.items, |items|)
      modifies fs
      ensures fs.files == ApplyWrites(old(fs.files), NamespaceWrites(config, parseXml, items, namespaceInfo, outputFolder))
    {
      var namespacePath := NamespaceFolder(outputFolder, namespaceInfo);
      var sorted := SortItems(items, config.kindOrder, namespaceInfo.items);
      GenerateItemFiles(items, sorted, -1, namespacePath, "", fs);
    }

    /** The pages of sibling items in order, each followed by its nested pages. */
    method GenerateItemFiles(items: seq<DocumentationItem>, refs: seq<ItemRef>, lo: int, folderPath: string, parentName: string, fs: FileSystem)
      requires Renderable(items) && AllAbove(refs, lo) && AllBelow(refs, |items|)
      modifies fs
      ensures fs.files == ApplyWrites(old(fs.files), NestedWrites(config, parseXml, items, refs, lo, folderPath, parentName))
      decreases |items| - lo, 0
    {
      ghost var start := fs.files;
      for i := 0 to |refs|
        invariant fs.files == ApplyWrites(start, NestedWrites(config, parseXml, items, refs[..i], lo, folderPath, parentName))
      {
        ghost var done := NestedWrites(config, parseXml, items, refs[..i], lo, folderPath, parentName);
        NestedWritesSnoc(config, parseXml, items, refs, i, lo, folderPath, parentName);
        GenerateItemMarkdownFile(items, refs[i], folderPath, parentName, fs);
        ApplyWritesAppend(start, done, PageWrites(config, parseXml, items, refs[i], folderPath, parentName));
      }
      assert refs[..|refs|] == refs;
    }

    /** GenerateItemMarkdownFile: writes the item's page and, unless classes are
        inlined, the pages of its nested types. */
    method GenerateItemMarkdownFile(items: seq<DocumentationItem>, r: ItemRef, folderPath: string, parentName: string, fs: FileSystem)
      requires Renderable(items) && r < |items|
      modifies fs
      ensures fs.files == ApplyWrites(old(fs.files), PageWrites(config, parseXml, items, r, folderPath, parentName))
      decreases |items| - r, 1
    {
      var item := items[r];
      if item.name == "" {
        return;
      }
      var markdown := BuildPage(items, r);
      var fileName := FileName(parentName, item.name);
      var filePath := PagePath(folderPath, fileName);
      ghost var start := fs.files;
      fs.WriteAllText(filePath, markdown);
      assert ApplyWrites(start, [(filePath, markdown)]) == start[filePath := markdown] by {
        assert [(filePath, markdown)][..0] == [];
      }
      if config.inlineClasses {
        assert [(filePath, markdown)] + [] == [(filePath, markdown)];
      } else {
        var nested := NestedClasses(config, items, r);
        GenerateItemFiles(items, nested, r, folderPath, fileName, fs);
        ApplyWritesAppend(start, [(filePath, markdown)], NestedWrites(config, parseXml, items, nested, r, folderPath, fileName));
      }
    }

    /** The StringBuilder part of GenerateItemMarkdownFile: the page's text. */
    method BuildPage(items: seq<DocumentationItem>, r: ItemRef) returns (text: string)
      requires Renderable(items) && r < |items|
      ensures text == PageText(config, parseXml, items, r)
    {
      var item := items[r];
      OwnMembers(items, r);
      var markdown := new StringBuilder();
      AppendTitle(markdown, items, r);
      assert [] + TitleText(config, items, r) == TitleText(config, items, r);
      AppendTocSection(markdown, items, r);
      GenerateItemMarkdown(item, markdown, 2);
      AppendGroups(items, MemberGroups(config, items, item.members), markdown);
      AppendInlineText(markdown, items, r);
      text := markdown.text;
    }

    /** The page title, when enabled. */
    method AppendTitle(markdown: StringBuilder, items: seq<DocumentationItem>, r: ItemRef)
      requires ParentsBelow(items) && r < |items|
      modifies markdown
      ensures markdown.text == old(markdown.text) + TitleText(config, items, r)
    {
      if config.writeTitle {
        ghost var start := markdown.text;
        var title := "# " + FullName(items, r);
        markdown.AppendLine(title);
        markdown.AppendLine("");
        assert Line("") == NewLine;
        AppendAssoc(start, Line(title), NewLine);
      } else {
        assert markdown.text + [] == markdown.text;
      }
    }

    /** The table of contents section, when enabled. */
    method AppendTocSection(markdown: StringBuilder, items: seq<DocumentationItem>, r: ItemRef)
      requires Closed(items) && r < |items|
      modifies markdown
      ensures markdown.text == old(markdown.text) + TocText(config, items, r)
    {
      if config.generateTableOfContents {
        ghost var start := markdown.text;
        var heading := "## Table of Contents";
        markdown.AppendLine(heading);
        GenerateTableOfContents(markdown, items, r);
        markdown.AppendLine("");
        assert Line("") == NewLine;
        AppendAssoc(start, Line(heading) + Toc(config, items, r), NewLine);
        AppendAssoc(start, Line(heading), Toc(config, items, r));
      } else {
        assert markdown.text + [] == markdown.text;
      }
    }

    /** The nested types' sections, when classes are inlined. */
    method AppendInlineText(markdown: StringBuilder, items: seq<DocumentationItem>, r: ItemRef)
      requires Renderable(items) && r < |items|
      modifies markdown
      ensures markdown.text == old(markdown.text) + InlineText(config, parseXml, items, r)
    {
      if config.inlineClasses {
        AppendInlineSections(items, NestedClasses(config, items, r), markdown);
      } else {
        assert markdown.text + [] == markdown.text;
      }
    }

    /** The kind groups of a page: a heading when the kind has a title, then
        each member's heading and Markdown. */
    method AppendGroups(items: seq<DocumentationItem>, groups: seq<(string, seq<ItemRef>)>, markdown: StringBuilder)
      requires forall i :: 0 <= i < |groups| ==> AllBelow(groups[i].1, |items|)
      modifies markdown
      ensures markdown.text == old(markdown.text) + GroupsText(config, parseXml, items, groups)
    {
      ghost var start := markdown.text;
      for g := 0 to |groups|
        invariant markdown.text == start + GroupsText(config, parseXml, items, groups[..g])
      {
        assert groups[..g + 1][..g] == groups[..g];
        ghost var done := GroupsText(config, parseXml, items, groups[..g]);
        var group := groups[g];
        AppendKindHeading(group.0, markdown);
        AppendMembers(items, group.1, markdown);
        ghost var heading := KindHeading(config, group.0);
        ghost var members := MembersText(config, parseXml, items, group.1);
        AppendAssoc(start, done + heading, members);
        AppendAssoc(start, done, heading);
      }
      assert groups[..|groups|] == groups;
    }

    /** A kind group's heading, when the kind has a title. */
    method AppendKindHeading(kind: string, markdown: StringBuilder)
      modifies markdown
      ensures markdown.text == old(markdown.text) + KindHeading(config, kind)
    {
      var kindIndex := IndexOf(config.kindOrder, kind);
      if kindIndex >= 0 && kindIndex < |config.kindTitles| {
        ghost var start := markdown.text;
        var title := "## " + config.kindTitles[kindIndex];
        markdown.AppendLine(title);
        markdown.AppendLine("");
        assert Line("") == NewLine;
        AppendAssoc(start, Line(title), NewLine);
      } else {
        assert markdown.text + [] == markdown.text;
      }
    }

    /** The members of one kind group. */
    method AppendMembers(items: seq<DocumentationItem>, members: seq<ItemRef>, markdown: StringBuilder)
      requires AllBelow(members, |items|)
      modifies markdown
      ensures markdown.text == old(markdown.text) + MembersText(config, parseXml, items, members)
    {
      ghost var start := markdown.text;
      for j := 0 to |members|
        invariant markdown.text == start + MembersText(config, parseXml, items, members[..j])
      {
        assert members[..j + 1][..j] == members[..j];
        ghost var done := MembersText(config, parseXml, items, members[..j]);
        var member := items[members[j]];
        AppendMember(member, markdown);
        AppendAssoc(start, done, MemberText(config, parseXml, member));
      }
      assert members[..|members|] == members;
    }

    /** One member: its `###` heading and its Markdown at level 3. */
    method AppendMember(member: DocumentationItem, markdown: StringBuilder)
      modifies markdown
      ensures markdown.text == old(markdown.text) + MemberText(config, parseXml, member)
    {
      ghost var start := markdown.text;
      var heading := "### " + FormatName(member.name, member.kind, config.kindOrder, config.kindTemplates);
      markdown.AppendLine(heading);
      markdown.AppendLine("");
      GenerateItemMarkdown(member, markdown, 3);
      assert Line("") == NewLine;
      AppendAssoc(start, Line(heading) + NewLine, ItemMarkdown(config, parseXml, member, 3));
      AppendAssoc(start, Line(heading), NewLine);
    }

    /** The inlined nested types of a page: a heading and the Markdown of each. */
    method AppendInlineSections(items: seq<DocumentationItem>, nested: seq<ItemRef>, markdown: StringBuilder)
      requires AllBelow(nested, |items|)
      modifies markdown
      ensures markdown.text == old(markdown.text) + InlineSections(config, parseXml, items, nested)
    {
      ghost var start := markdown.text;
      for i := 0 to |nested|
        invariant markdown.text == start + InlineSections(config, parseXml, items, nested[..i])
      {
        assert nested[..i + 1][..i] == nested[..i];
        ghost var done := InlineSections(config, parseXml, items, nested[..i]);
        var nestedItem := items[nested[i]];
        AppendInlineSection(nestedItem, markdown);
        AppendAssoc(start, done, InlineSection(config, parseXml, nestedItem));
      }
      assert nested[..|nested|] == nested;
    }

    /** One inlined nested type: its `##` heading and its Markdown at level 2. */
    method AppendInlineSection(nestedItem: DocumentationItem, markdown: StringBuilder)
      modifies markdown
      ensures markdown.text == old(markdown.text) + InlineSection(config, parseXml, nestedItem)
    {
      ghost var start := markdown.text;
      var heading := "## " + FormatName(nestedItem.name, nestedItem.kind, config.kindOrder, config.kindTemplates);
      markdown.AppendLine(heading);
      markdown.AppendLine("");
      GenerateItemMarkdown(nestedItem, markdown, 2);
      assert Line("") == NewLine;
      AppendAssoc(start, Line(heading) + NewLine, ItemMarkdown(config, parseXml, nestedItem, 2));
      AppendAssoc(start, Line(heading), NewLine);
    }

    /** GenerateItemMarkdown: appends the attribute lines and the Markdown of
        each top-level element of the item's comment, or the error line. */
    method GenerateItemMarkdown(item: DocumentationItem, markdown: StringBuilder, level: nat)
      modifies markdown
      ensures markdown.text == old(markdown.text) + ItemMarkdown(config, parseXml, item, level)
    {
      ghost var start := markdown.text;
      if IsBlank(item.xmlComment) {
        assert start + [] == start;
        return;
      }
      ghost var attributeText := "";
      if config.writeAttributes && item.attributes != [] {
        AppendAttributes(item.attributes, markdown);
        markdown.AppendLine("");
        assert Line("") == NewLine;
        attributeText := AttributeLines(item.attributes) + NewLine;
        AppendAssoc(start, AttributeLines(item.attributes), NewLine);
      } else {
        assert start + [] == start;
      }
      assert markdown.text == start + attributeText;
      var parsed := parseXml("<root>" + item.xmlComment + "</root>");
      match parsed {
        case Parsed(root) =>
          AppendElements(Elements(Nodes(root)), markdown, level);
        case XmlError(_) =>
          markdown.AppendLine("Error parsing XML comment: " + item.xmlComment);
      }
      AppendAssoc(start, attributeText, CommentText(parsed, item.xmlComment, level));
    }

    /** The `*Attribute*` lines of an item. */
    method AppendAttributes(attributes: seq<AttributeInfo>, markdown: StringBuilder)
      modifies markdown
      ensures markdown.text == old(markdown.text) + AttributeLines(attributes)
    {
      ghost var start := markdown.text;
      for i := 0 to |attributes|
        invariant markdown.text == start + AttributeLines(attributes[..i])
      {
        assert attributes[..i + 1][..i] == attributes[..i];
        ghost var done := AttributeLines(attributes[..i]);
        var line := "*" + FormatAttribute(attributes[i]) + "*";
        markdown.AppendLine(line);
        AppendAssoc(start, done, Line(line));
      }
      assert attributes[..|attributes|] == attributes;
    }

    /** The Markdown of each top-level element of a parsed comment. */
    method AppendElements(elems: seq<XNode>, markdown: StringBuilder, level: nat)
      requires forall k :: 0 <= k < |elems| ==> elems[k].XElement?
      modifies markdown
      ensures markdown.text == old(markdown.text) + RangeMarkdown(elems, 0, |elems|, level)
    {
      ghost var start := markdown.text;
      for i := 0 to |elems|
        invariant markdown.text == start + RangeMarkdown(elems, 0, i, level)
      {
        var next := i + 1;
        ProcessXmlElement(elems, i, markdown, level);
        RangeUnfold(elems, 0, i, next, level);
        AppendAssoc(start, RangeMarkdown(elems, 0, i, level), ElementMarkdown(elems, i, level));
      }
    }

    /** GenerateTableOfContents: appends the item's table of contents. */
    method GenerateTableOfContents(markdown: StringBuilder, items: seq<DocumentationItem>, r: ItemRef)
      requires Closed(items) && r < |items|
      modifies markdown
      ensures markdown.text == old(markdown.text) + Toc(config, items, r)
      decreases |items| - r, 1
    {
      ghost var start := markdown.text;
      var entry := "- " + EntryLink(items[r]);
      markdown.AppendLine(entry);
      OwnMembers(items, r);
      var members := SortItems(items, config.kindOrder, items[r].members);
      MembersAbove(items, r, members);
      var others := WhereClass(items, members, false);
      AppendMemberEntries(markdown, items, others);
      var nested := WhereClass(items, members, true);
      WithinTrans(nested, members, items[r].members);
      MembersAbove(items, r, nested);
      if config.inlineClasses {
        AppendInlineToc(markdown, items, nested, r);
      } else {
        AppendPageLinks(markdown, items, items[r].name, nested);
      }
      ghost var listed := MemberEntries(items, others);
      ghost var rest := if config.inlineClasses then InlineToc(config, items, nested, r) else PageLinks(items, items[r].name, nested);
      assert TocBody(config, items, r) == listed + rest;
      AppendAssoc(start + Line(entry), listed, rest);
      AppendAssoc(start, Line(entry), listed + rest);
    }

    /** The indented entries of the members that are not class kinds. */
    method AppendMemberEntries(markdown: StringBuilder, items: seq<DocumentationItem>, others: seq<ItemRef>)
      requires AllBelow(others, |items|)
      modifies markdown
      ensures markdown.text == old(markdown.text) + MemberEntries(items, others)
    {
      ghost var start := markdown.text;
      for i := 0 to |others|
        invariant markdown.text == start + MemberEntries(items, others[..i])
      {
        assert others[..i + 1][..i] == others[..i];
        ghost var done := MemberEntries(items, others[..i]);
        var line := "  - " + EntryLink(items[others[i]]);
        markdown.AppendLine(line);
        AppendAssoc(start, done, Line(line));
      }
      assert others[..|others|] == others;
    }

    /** With inline classes: each nested type's entry, then its own table. */
    method AppendInlineToc(markdown: StringBuilder, items: seq<DocumentationItem>, nested: seq<ItemRef>, r: ItemRef)
      requires Closed(items) && AllAbove(nested, r) && AllBelow(nested, |items|)
      modifies markdown
      ensures markdown.text == old(markdown.text) + InlineToc(config, items, nested, r)
      decreases |items| - r, 0
    {
      ghost var start := markdown.text;
      for i := 0 to |nested|
        invariant markdown.text == start + InlineToc(config, items, nested[..i], r)
      {
        assert nested[..i + 1][..i] == nested[..i];
        assert AllAbove(nested[..i + 1], r);
        ghost var done := InlineToc(config, items, nested[..i], r);
        var entry := "- " + EntryLink(items[nested[i]]);
        markdown.AppendLine(entry);
        GenerateTableOfContents(markdown, items, nested[i]);
        AppendAssoc(start, done + Line(entry), Toc(config, items, nested[i]));
        AppendAssoc(start, done, Line(entry));
      }
      assert nested[..|nested|] == nested;
    }

    /** Without inline classes: a link to each nested type's page. */
    method AppendPageLinks(markdown: StringBuilder, items: seq<DocumentationItem>, pageName: string, nested: seq<ItemRef>)
      requires AllBelow(nested, |items|)
      modifies markdown
      ensures markdown.text == old(markdown.text) + PageLinks(items, pageName, nested)
    {
      ghost var start := markdown.text;
      for i := 0 to |nested|
        invariant markdown.text == start + PageLinks(items, pageName, nested[..i])
      {
        assert nested[..i + 1][..i] == nested[..i];
        ghost var done := PageLinks(items, pageName, nested[..i]);
        var nestedClass := items[nested[i]];
        var line := "- [" + nestedClass.kind + " " + nestedClass.name + "](" + FormatFileName(pageName) + "-" + FormatFileName(nestedClass.name) + ".md)";
        markdown.AppendLine(line);
        AppendAssoc(start, done, Line(line));
      }
      assert nested[..|nested|] == nested;
    }
  }
}
