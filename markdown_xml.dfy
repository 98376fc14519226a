/** How MarkdownGenerator renders the XML of one documentation comment:
    FormatXmlElement and FormatList turn an element's content into inline
    Markdown; ProcessXmlElement turns each top-level tag into a section.
    The functions state the output; the methods build it as the generator does. */
module MarkdownXml {
  import opened Text
  import opened Xml
  import opened Output
  import opened MarkdownFormat

  // ---------------------------------------------------------------------------
  // FormatXmlElement and FormatList: the specification

  /** The Markdown of an element's content, trimmed. */
  function ElementText(e: XNode): string
    decreases e, 2
  {
    match e
    case XElement(_, _, nodes) => Trim(NodesText(nodes))
    case _ => ""
  }

  /** The Markdown of a run of nodes, untrimmed. */
  function NodesText(nodes: seq<XNode>): string
    decreases nodes, 3
  {
    if nodes == [] then ""
    else NodesText(nodes[..|nodes| - 1]) + NodeText(nodes[|nodes| - 1])
  }

  /** One node: text as it is, inline tags by their case-sensitive name, any
      other element by its own content. */
  function NodeText(n: XNode): string
    decreases n, 4
  {
    match n
    case XText(v) => v
    case XOther => ""
    case XElement(name, _, _) =>
      if name == "c" then "`" + Value(n) + "`"
      else if name == "code" then Line("```csharp") + Line(Trim(Value(n))) + Line("```")
      else if name == "para" then NewLine + Line(ElementText(n)) + NewLine
      else if name == "see" then SeeText(n)
      else if name == "paramref" || name == "typeparamref" then "`" + AttributeOrEmpty(n, "name") + "`"
      else if name == "list" then ListText(n)
      else ElementText(n)
  }

  /** A `see` reference: the formatted cref in code, else a link to href, else nothing. */
  function SeeText(n: XNode): string {
    var cref := AttributeOrEmpty(n, "cref");
    var href := AttributeOrEmpty(n, "href");
    if cref != "" then "`" + FormatCref(cref) + "`"
    else if href != "" then "[" + Value(n) + "](" + href + ")"
    else ""
  }

  /** The list's type attribute, "bullet" when it is missing. */
  function ListType(l: XNode): string {
    if l.XElement? then
      match Attribute(l.attributes, "type")
      case Some(t) => t
      case None => "bullet"
    else "bullet"
  }

  /** The header lines of a table list; other lists have none. */
  function ListHeader(listType: string): string {
    if listType == "table" then Line("| Term | Description |") + Line("|------|-------------|") else ""
  }

  /** A list: a blank line, a table header for tables, one line per `item`
      child, and a blank line. */
  function ListText(l: XNode): string
    decreases l, 2
  {
    match l
    case XElement(_, _, nodes) =>
      var listType := ListType(l);
      NewLine + ListHeader(listType) + ItemsText(nodes, listType) + NewLine
    case _ => ""
  }

  /** The lines of the `item` children among nodes, numbered from 1. */
  function ItemsText(nodes: seq<XNode>, listType: string): string
    decreases nodes, 1
  {
    if nodes == [] then ""
    else
      var front := nodes[..|nodes| - 1];
      var last := nodes[|nodes| - 1];
      ItemsText(front, listType) +
      (if last.XElement? && last.name == "item" then ItemLine(last, listType, |ElementsNamed(front, "item")| + 1) else "")
  }

  /** The formatted content of the first child element with that name, "" when
      there is none. */
  function ChildText(nodes: seq<XNode>, name: string): string
    decreases nodes, 0
  {
    if nodes == [] then ""
    else if nodes[0].XElement? && nodes[0].name == name then ElementText(nodes[0])
    else ChildText(nodes[1..], name)
  }

  /** The line of the index-th item of a list. */
  function ItemLine(item: XNode, listType: string, index: nat): string
    decreases item, 0
  {
    match item
    case XElement(_, _, nodes) =>
      var term := ChildText(nodes, "term");
      var description := ChildText(nodes, "description");
      var termPrefix := if Element(nodes, "term").None? then "" else "**" + term + "**: ";
      if listType == "table" then Line("| " + term + " | " + description + " |")
      else if listType == "number" then Line(NatToString(index) + ". " + termPrefix + description)
      else Line("- " + termPrefix + description)
    case _ => ""
  }

  /** The item lines of a sequence of `item` elements, numbered from 1. */
  function ItemLines(items: seq<XNode>, listType: string): string {
    if items == [] then ""
    else ItemLines(items[..|items| - 1], listType) + ItemLine(items[|items| - 1], listType, |items|)
  }

  lemma ItemLinesSnoc(items: seq<XNode>, k: nat, listType: string)
    requires k < |items|
    ensures ItemLines(items[..k + 1], listType) == ItemLines(items[..k], listType) + ItemLine(items[k], listType, k + 1)
  {
    assert items[..k + 1][..k] == items[..k];
  }

  lemma {:induction false} ChildTextIsElement(nodes: seq<XNode>, name: string)
    ensures ChildText(nodes, name) == match Element(nodes, name) case Some(t) => ElementText(t) case None => ""
  {
    if nodes != [] {
      ChildTextIsElement(nodes[1..], name);
    }
  }

  lemma ItemLinesAppend(before: seq<XNode>, last: XNode, listType: string)
    ensures ItemLines(before + [last], listType) == ItemLines(before, listType) + ItemLine(last, listType, |before| + 1)
  {
    var items := before + [last];
    assert items[..|items| - 1] == before;
  }

  /** The items of a list are its `item` children, in order. */
  lemma {:induction false} ItemsTextByItems(nodes: seq<XNode>, listType: string)
    ensures ItemsText(nodes, listType) == ItemLines(ElementsNamed(nodes, "item"), listType)
  {
    if nodes != [] {
      ItemsTextByItems(nodes[..|nodes| - 1], listType);
      ItemsLast(nodes, listType);
    }
  }

  lemma ItemsLast(nodes: seq<XNode>, listType: string)
    requires nodes != []
    requires ItemsText(nodes[..|nodes| - 1], listType) == ItemLines(ElementsNamed(nodes[..|nodes| - 1], "item"), listType)
    ensures ItemsText(nodes, listType) == ItemLines(ElementsNamed(nodes, "item"), listType)
  {
    ElementsNamedLast(nodes, "item");
    if nodes[|nodes| - 1].XElement? && nodes[|nodes| - 1].name == "item" {
      ItemsLastItem(nodes, listType);
    } else {
      ItemsLastOther(nodes, listType);
    }
  }

  lemma ItemsLastItem(nodes: seq<XNode>, listType: string)
    requires nodes != [] && nodes[|nodes| - 1].XElement? && nodes[|nodes| - 1].name == "item"
    requires ItemsText(nodes[..|nodes| - 1], listType) == ItemLines(ElementsNamed(nodes[..|nodes| - 1], "item"), listType)
    requires ElementsNamed(nodes, "item") == ElementsNamed(nodes[..|nodes| - 1], "item") + [nodes[|nodes| - 1]]
    ensures ItemsText(nodes, listType) == ItemLines(ElementsNamed(nodes, "item"), listType)
  {
    ItemLinesAppend(ElementsNamed(nodes[..|nodes| - 1], "item"), nodes[|nodes| - 1], listType);
  }

  lemma ItemsLastOther(nodes: seq<XNode>, listType: string)
    requires nodes != [] && !(nodes[|nodes| - 1].XElement? && nodes[|nodes| - 1].name == "item")
    requires ItemsText(nodes[..|nodes| - 1], listType) == ItemLines(ElementsNamed(nodes[..|nodes| - 1], "item"), listType)
    requires ElementsNamed(nodes, "item") == ElementsNamed(nodes[..|nodes| - 1], "item") + []
    ensures ItemsText(nodes, listType) == ItemLines(ElementsNamed(nodes, "item"), listType)
  {
    var before := ElementsNamed(nodes[..|nodes| - 1], "item");
    assert before + [] == before;
  }

  /** The text of an element is trimmed: empty, or starting and ending with
      a character that is not white space. */
  lemma ElementTextTrimmed(e: XNode)
    ensures ElementText(e) == [] || (!IsWhiteSpace(ElementText(e)[0]) && !IsWhiteSpace(ElementText(e)[|ElementText(e)| - 1]))
  {
    if e.XElement? {
      assert ElementText(e) == Trim(NodesText(e.nodes));
      var _ := TrimFacts(NodesText(e.nodes));
    }
  }

  /** An element holding only text renders as that text, trimmed. */
  lemma PlainText(name: string, attributes: seq<(string, string)>, t: string)
    ensures ElementText(XElement(name, attributes, [XText(t)])) == Trim(t)
  {
    var nodes := [XText(t)];
    assert nodes[..|nodes| - 1] == [];
    assert NodesText(nodes) == NodesText([]) + NodeText(XText(t)) == t;
    assert ElementText(XElement(name, attributes, nodes)) == Trim(NodesText(nodes));
  }

  /** A list starts and ends with a blank line, and a table starts with its header. */
  lemma ListFraming(l: XNode)
    requires l.XElement?
    ensures ListText(l) == NewLine + ListHeader(ListType(l)) + ItemLines(ElementsNamed(l.nodes, "item"), ListType(l)) + NewLine
  {
    ItemsTextByItems(l.nodes, ListType(l));
  }

  // ---------------------------------------------------------------------------
  // FormatXmlElement and FormatList: the methods

  /** FormatXmlElement: appends the Markdown of each child node, then trims. */
  method FormatXmlElement(element: XNode) returns (text: string)
    requires element.XElement?
    ensures text == ElementText(element)
    decreases element, 2
  {
    var sb := "";
    var nodes := element.nodes;
    for k := 0 to |nodes|
      invariant sb == NodesText(nodes[..k])
    {
      var piece := FormatNode(nodes[k]);
      assert nodes[..k + 1][..k] == nodes[..k];
      assert NodesText(nodes[..k + 1]) == NodesText(nodes[..k]) + NodeText(nodes[k]);
      sb := sb + piece;
    }
    assert nodes[..|nodes|] == nodes;
    text := Trim(sb);
  }

  /** The body of FormatXmlElement's loop: the Markdown of one child node. */
  method FormatNode(node: XNode) returns (piece: string)
    ensures piece == NodeText(node)
    decreases node, 3
  {
    piece := "";
    match node
    case XText(v) =>
      piece := v;
    case XOther =>
    case XElement(name, _, _) =>
      if name == "c" {
        piece := "`" + Value(node) + "`";
      } else if name == "code" {
        piece := Line("```csharp") + Line(Trim(Value(node))) + Line("```");
      } else if name == "para" {
        var inner := FormatXmlElement(node);
        piece := NewLine + Line(inner) + NewLine;
      } else if name == "see" {
        var cref := AttributeOrEmpty(node, "cref");
        var href := AttributeOrEmpty(node, "href");
        if cref != "" {
          piece := "`" + FormatCref(cref) + "`";
        } else if href != "" {
          piece := "[" + Value(node) + "](" + href + ")";
        }
      } else if name == "paramref" || name == "typeparamref" {
        piece := "`" + AttributeOrEmpty(node, "name") + "`";
      } else if name == "list" {
        piece := FormatList(node);
      } else {
        piece := FormatXmlElement(node);
      }
  }

  /** FormatList: one line per `item` child, numbered by a counter. */
  method FormatList(listElement: XNode) returns (text: string)
    requires listElement.XElement?
    ensures text == ListText(listElement)
    decreases listElement, 1
  {
    var sb := "";
    var listType := match Attribute(listElement.attributes, "type") case Some(t) => t case None => "bullet";
    sb := sb + NewLine;
    if listType == "table" {
      sb := sb + Line("| Term | Description |");
      sb := sb + Line("|------|-------------|");
    }
    assert sb == NewLine + ListHeader(listType);
    var items := ElementsNamed(listElement.nodes, "item");
    var lines := "";
    var index := 1;
    for k := 0 to |items|
      invariant index == k + 1
      invariant lines == ItemLines(items[..k], listType)
    {
      var line := FormatItem(items[k], listType, index);
      ItemLinesSnoc(items, k, listType);
      lines := lines + line;
      index := index + 1;
    }
    assert items[..|items|] == items;
    assert listType == ListType(listElement);
    ListFraming(listElement);
    text := sb + lines + NewLine;
  }

  /** The body of FormatList's loops: the line of one item. */
  method FormatItem(item: XNode, listType: string, index: nat) returns (line: string)
    requires item.XElement?
    ensures line == ItemLine(item, listType, index)
    decreases item, 0
  {
    var termElement := Element(item.nodes, "term");
    var descriptionElement := Element(item.nodes, "description");
    var term := "";
    if termElement.Some? {
      term := FormatXmlElement(termElement.value);
    }
    var description := "";
    if descriptionElement.Some? {
      description := FormatXmlElement(descriptionElement.value);
    }
    ChildTextIsElement(item.nodes, "term");
    ChildTextIsElement(item.nodes, "description");
    var termPrefix := if termElement.None? then "" else "**" + term + "**: ";
    if listType == "table" {
      line := Line("| " + term + " | " + description + " |");
    } else if listType == "number" {
      line := Line(NatToString(index) + ". " + termPrefix + description);
    } else {
      line := Line("- " + termPrefix + description);
    }
  }

  // ---------------------------------------------------------------------------
  // ProcessXmlElement: the specification

  function LocalName(e: XNode): string {
    if e.XElement? then e.name else ""
  }

  /** The name with its first character in upper case. */
  function Capitalize(name: string): string {
    if name == "" then "" else [ToUpperChar(name[0])] + name[1..]
  }

  /** A heading one level below the given one. */
  function Heading(level: nat, title: string): string {
    Line(Repeat('#', level + 1) + " " + title)
  }

  /** The cases of ProcessXmlElement's switch on the lower-cased tag name. */
  datatype Tag = SummaryTag | ParamTag | SectionTag | ExceptionTag | SeeAlsoTag | CustomTag

  function TagOf(key: string): Tag {
    if key == "summary" then SummaryTag
    else if key == "typeparam" || key == "param" then ParamTag
    else if key == "returns" || key == "value" || key == "remarks" || key == "example" then SectionTag
    else if key == "exception" then ExceptionTag
    else if key == "seealso" then SeeAlsoTag
    else CustomTag
  }

  /** The tag of an element, whatever the case of its name. */
  function TagOfElement(e: XNode): Tag {
    TagOf(ToLower(LocalName(e)))
  }

  /** The tags whose entries share one heading. */
  predicate IsGrouped(tag: Tag) {
    tag.ParamTag? || tag.ExceptionTag? || tag.SeeAlsoTag?
  }

  /** The names after whose last sibling a blank line is written (case-sensitive). */
  predicate IsGroupName(name: string) {
    name == "typeparam" || name == "param" || name == "exception" || name == "seealso"
  }

  function GroupTitle(e: XNode): string {
    match TagOfElement(e)
    case ExceptionTag => "Exceptions"
    case SeeAlsoTag => "See Also"
    case _ => Capitalize(LocalName(e)) + "eters"
  }

  /** The line of one grouped entry, without its group heading. */
  function EntryLines(e: XNode): string {
    match TagOfElement(e)
    case ExceptionTag => Line("- `" + FormatCref(AttributeOrEmpty(e, "cref")) + "`: " + ElementText(e))
    case SeeAlsoTag =>
      var cref := AttributeOrEmpty(e, "cref");
      var href := AttributeOrEmpty(e, "href");
      if cref != "" then Line("- " + FormatCref(cref))
      else if href != "" then Line("- [" + Value(e) + "](" + href + ")")
      else ""
    case _ => Line("- `" + AttributeOrEmpty(e, "name") + "`: " + ElementText(e))
  }

  /** A section: the text of a summary, or a heading named after the tag and
      the text; then a blank line. */
  function SectionMarkdown(e: XNode, level: nat): string {
    if TagOfElement(e).SummaryTag? then Line(ElementText(e)) + NewLine
    else Heading(level, Capitalize(LocalName(e))) + Line(ElementText(e)) + NewLine
  }

  /** No earlier sibling has that name. */
  predicate FirstNamed(elems: seq<XNode>, i: nat, name: string)
    requires i <= |elems|
  {
    forall j :: 0 <= j < i ==> LocalName(elems[j]) != name
  }

  /** No later sibling has that name. */
  predicate LastNamed(elems: seq<XNode>, i: nat, name: string)
    requires i < |elems|
  {
    forall j :: i < j < |elems| ==> LocalName(elems[j]) != name
  }

  /** What the switch of ProcessXmlElement writes for the i-th element: a
      grouped entry, headed when no earlier sibling has its name, or a section. */
  function ElementBody(elems: seq<XNode>, i: nat, level: nat): string
    requires i < |elems|
  {
    var e := elems[i];
    if IsGrouped(TagOfElement(e)) then
      (if FirstNamed(elems, i, LocalName(e)) then Heading(level, GroupTitle(e)) else "") + EntryLines(e)
    else SectionMarkdown(e, level)
  }

  /** The Markdown of the i-th top-level element: its body, then a blank line
      after the last sibling of a lower-case group name. Siblings are found by
      the element's own name. */
  function ElementMarkdown(elems: seq<XNode>, i: nat, level: nat): string
    requires i < |elems|
  {
    var name := LocalName(elems[i]);
    ElementBody(elems, i, level) + (if LastNamed(elems, i, name) && IsGroupName(name) then NewLine else "")
  }

  /** The group names are in lower case, so their tags are grouped ones. */
  lemma GroupNameIsLower(name: string)
    ensures IsGroupName(name) ==> ToLower(name) == name && IsGrouped(TagOf(name))
  {
    if IsGroupName(name) {
      assert forall k :: 0 <= k < |name| ==> !IsUpper(name[k]);
    }
  }

  /** The Markdown of the top-level elements lo .. hi - 1. */
  function RangeMarkdown(elems: seq<XNode>, lo: nat, hi: nat, level: nat): string
    requires lo <= hi <= |elems|
  {
    ConcatRange(Pieces(elems, level), lo, hi)
  }

  /** The Markdown of each top-level element, by position. */
  function Pieces(elems: seq<XNode>, level: nat): seq<string> {
    seq(|elems|, i requires 0 <= i < |elems| => ElementMarkdown(elems, i, level))
  }

  /** The pieces lo .. hi - 1, concatenated. */
  function ConcatRange(pieces: seq<string>, lo: nat, hi: nat): string
    requires lo <= hi <= |pieces|
    decreases hi - lo
  {
    if lo == hi then "" else ConcatRange(pieces, lo, hi - 1) + pieces[hi - 1]
  }

  /** The Markdown of a parsed comment: its top-level elements in order. */
  function CommentMarkdown(rootNodes: seq<XNode>, level: nat): string {
    var elems := Elements(rootNodes);
    RangeMarkdown(elems, 0, |elems|, level)
  }

  /** The entry lines of the elements lo .. hi - 1. */
  function Entries(elems: seq<XNode>, lo: nat, hi: nat): string
    requires lo <= hi <= |elems|
  {
    ConcatRange(seq(|elems|, i requires 0 <= i < |elems| => EntryLines(elems[i])), lo, hi)
  }

  /** Siblings lo .. hi - 1 share one name, and no other sibling has it. */
  predicate IsRun(elems: seq<XNode>, lo: nat, hi: nat)
    requires lo < hi <= |elems|
  {
    (forall j {:trigger LocalName(elems[j])} :: lo <= j < hi ==> LocalName(elems[j]) == LocalName(elems[lo])) &&
    (forall j {:trigger LocalName(elems[j])} :: 0 <= j < |elems| && (j < lo || hi <= j) ==> LocalName(elems[j]) != LocalName(elems[lo]))
  }

  function BlankLineIf(b: bool): string {
    if b then NewLine else ""
  }

  /** A run of grouped entries so far: the group heading, the entries lo .. h - 1,
      and, once the run is complete, a blank line for a lower-case group name. */
  function RunMarkdown(elems: seq<XNode>, lo: nat, h: nat, hi: nat, level: nat): string
    requires lo < h <= hi <= |elems|
  {
    Heading(level, GroupTitle(elems[lo])) + Entries(elems, lo, h) + BlankLineIf(IsGroupName(LocalName(elems[lo])) && h == hi)
  }

  /** A run of consecutive siblings of one grouped tag, whose name occurs
      nowhere else, renders as one heading and the entries, followed by a blank
      line only when the name is in lower case. */
  lemma GroupMarkdown(elems: seq<XNode>, lo: nat, hi: nat, level: nat)
    requires lo < hi <= |elems| && IsGrouped(TagOfElement(elems[lo])) && IsRun(elems, lo, hi)
    ensures RangeMarkdown(elems, lo, hi, level) ==
      Heading(level, GroupTitle(elems[lo])) + Entries(elems, lo, hi) + (if IsGroupName(LocalName(elems[lo])) then NewLine else "")
  {
    GroupPrefix(elems, lo, hi, hi, level);
  }

  lemma {:induction false} GroupPrefix(elems: seq<XNode>, lo: nat, h: nat, hi: nat, level: nat)
    requires lo < h <= hi <= |elems| && IsGrouped(TagOfElement(elems[lo])) && IsRun(elems, lo, hi)
    ensures RangeMarkdown(elems, lo, h, level) == RunMarkdown(elems, lo, h, hi, level)
    decreases h
  {
    var g := h - 1;
    if g == lo {
      GroupFirst(elems, lo, h, hi, level);
    } else {
      GroupPrefix(elems, lo, g, hi, level);
      GroupNext(elems, lo, g, h, hi, level);
    }
  }

  lemma GroupFirst(elems: seq<XNode>, lo: nat, h: nat, hi: nat, level: nat)
    requires lo == h - 1 && h <= hi <= |elems| && IsGrouped(TagOfElement(elems[lo])) && IsRun(elems, lo, hi)
    ensures RangeMarkdown(elems, lo, h, level) == RunMarkdown(elems, lo, h, hi, level)
  {
    GroupStep(elems, lo, lo, h, hi, level);
    EntriesUnfold(elems, lo, lo, h);
    assert RangeMarkdown(elems, lo, lo, level) == "" && Entries(elems, lo, lo) == "";
    Concat3(Heading(level, GroupTitle(elems[lo])), EntryLines(elems[lo]), BlankLineIf(IsGroupName(LocalName(elems[lo])) && h == hi));
  }

  lemma GroupNext(elems: seq<XNode>, lo: nat, g: nat, h: nat, hi: nat, level: nat)
    requires lo < g && g == h - 1 && h <= hi <= |elems| && IsGrouped(TagOfElement(elems[lo])) && IsRun(elems, lo, hi)
    requires RangeMarkdown(elems, lo, g, level) == RunMarkdown(elems, lo, g, hi, level)
    ensures RangeMarkdown(elems, lo, h, level) == RunMarkdown(elems, lo, h, hi, level)
  {
    GroupStep(elems, lo, g, h, hi, level);
    EntriesUnfold(elems, lo, g, h);
    assert BlankLineIf(IsGroupName(LocalName(elems[lo])) && g == hi) == "";
    Concat4(Heading(level, GroupTitle(elems[lo])), Entries(elems, lo, g), EntryLines(elems[g]), BlankLineIf(IsGroupName(LocalName(elems[lo])) && h == hi));
  }

  /** One more element g of a run: the heading before the first, the blank line
      after the last of a lower-case group name. */
  lemma GroupStep(elems: seq<XNode>, lo: nat, g: nat, h: nat, hi: nat, level: nat)
    requires lo <= g && g == h - 1 && h <= hi <= |elems| && IsGrouped(TagOfElement(elems[lo])) && IsRun(elems, lo, hi)
    ensures RangeMarkdown(elems, lo, h, level) == RangeMarkdown(elems, lo, g, level) +
      ((if g == lo then Heading(level, GroupTitle(elems[lo])) else "") + EntryLines(elems[g])
       + BlankLineIf(IsGroupName(LocalName(elems[lo])) && h == hi))
  {
    RangeUnfold(elems, lo, g, h, level);
    RunPosition(elems, lo, g, hi);
    ElementMarkdownEntry(elems, g, level, g == lo, IsGroupName(LocalName(elems[lo])) && h == hi);
  }

  /** RangeMarkdown and Entries one step shorter, for g == h - 1. */
  lemma RangeUnfold(elems: seq<XNode>, lo: nat, g: nat, h: nat, level: nat)
    requires lo <= g && g == h - 1 && h <= |elems|
    ensures RangeMarkdown(elems, lo, h, level) == RangeMarkdown(elems, lo, g, level) + ElementMarkdown(elems, g, level)
  {
    ConcatUnfold(Pieces(elems, level), lo, g, h);
  }

  /** Regroupings of string pieces, stated over plain strings so that the
      pieces' definitions are not unfolded where it is used. */
  lemma Concat3(a: string, b: string, c: string)
    ensures "" + ((a + b) + c) == a + ("" + b) + c
  {
  }

  lemma Concat4(a: string, b: string, c: string, d: string)
    ensures (a + b + "") + (("" + c) + d) == a + (b + c) + d
  {
  }

  lemma ConcatUnfold(pieces: seq<string>, lo: nat, g: nat, h: nat)
    requires lo <= g && g == h - 1 && h <= |pieces|
    ensures ConcatRange(pieces, lo, h) == ConcatRange(pieces, lo, g) + pieces[g]
  {
  }

  lemma EntriesUnfold(elems: seq<XNode>, lo: nat, g: nat, h: nat)
    requires lo <= g && g == h - 1 && h <= |elems|
    ensures Entries(elems, lo, h) == Entries(elems, lo, g) + EntryLines(elems[g])
  {
    ConcatUnfold(seq(|elems|, i requires 0 <= i < |elems| => EntryLines(elems[i])), lo, g, h);
  }

  /** Within a run, every member has the run's tag, the first of the run is the
      first of that name and the last is the last. */
  lemma RunPosition(elems: seq<XNode>, lo: nat, i: nat, hi: nat)
    requires lo <= i < hi <= |elems| && IsRun(elems, lo, hi)
    ensures LocalName(elems[i]) == LocalName(elems[lo]) && TagOfElement(elems[i]) == TagOfElement(elems[lo])
    ensures FirstNamed(elems, i, LocalName(elems[i])) <==> i == lo
    ensures LastNamed(elems, i, LocalName(elems[i])) <==> i + 1 == hi
  {
    var name := LocalName(elems[lo]);
    assert LocalName(elems[i]) == name;
    if i > lo {
      assert LocalName(elems[lo]) == name;
    }
    if i + 1 < hi {
      assert LocalName(elems[i + 1]) == name;
    }
  }

  /** A grouped entry, given whether it is the first of its name and whether a
      blank line follows it. */
  lemma ElementMarkdownEntry(elems: seq<XNode>, i: nat, level: nat, first: bool, last: bool)
    requires i < |elems| && IsGrouped(TagOfElement(elems[i]))
    requires first == FirstNamed(elems, i, LocalName(elems[i]))
    requires last == (IsGroupName(LocalName(elems[i])) && LastNamed(elems, i, LocalName(elems[i])))
    ensures ElementMarkdown(elems, i, level) ==
      (if first then Heading(level, GroupTitle(elems[i])) else "") + EntryLines(elems[i]) + BlankLineIf(last)
  {
  }

  /** A section does not depend on its siblings. */
  lemma SectionAnywhere(elems: seq<XNode>, i: nat, level: nat)
    requires i < |elems| && !IsGrouped(TagOfElement(elems[i]))
    ensures ElementMarkdown(elems, i, level) == SectionMarkdown(elems[i], level)
  {
    GroupNameIsLower(LocalName(elems[i]));
  }

  /** Text between the top-level elements of a comment is not rendered. */
  lemma TopLevelTextIgnored(a: seq<XNode>, t: string, b: seq<XNode>, level: nat)
    ensures CommentMarkdown(a + [XText(t)] + b, level) == CommentMarkdown(a + b, level)
  {
    IgnoresText(a, XText(t), b);
  }

  // ---------------------------------------------------------------------------
  // ProcessXmlElement as written

  /** Elements(name).First(): the position of the first sibling with exactly
      that name; None where First() throws. */
  function FirstIndexNamed(elems: seq<XNode>, name: string): (r: Option<nat>)
    ensures r.None? <==> forall j :: 0 <= j < |elems| ==> LocalName(elems[j]) != name
    ensures r.Some? ==> r.value < |elems| && LocalName(elems[r.value]) == name && FirstNamed(elems, r.value, name)
  {
    if elems == [] then None
    else if LocalName(elems[0]) == name then Some(0)
    else
      match FirstIndexNamed(elems[1..], name)
      case None => None
      case Some(f) => Some(f + 1)
  }

  /** The source's rendering: for exception and see-also tags it looks up the
      first sibling by the lower-case literal, while the switch matched the tag
      name case-insensitively. None stands for the exception First() throws
      when no sibling has the lower-case name. */
  function ElementMarkdownAsWritten(elems: seq<XNode>, i: nat, level: nat): Option<string>
    requires i < |elems|
  {
    var e := elems[i];
    var name := LocalName(e);
    var tag := TagOfElement(e);
    if tag.ExceptionTag? || tag.SeeAlsoTag? then
      var literal := if tag.ExceptionTag? then "exception" else "seealso";
      match FirstIndexNamed(elems, literal)
      case None => None
      case Some(f) =>
        Some((if f == i then Heading(level, GroupTitle(e)) else "") + EntryLines(e)
             + (if LastNamed(elems, i, name) && IsGroupName(name) then NewLine else ""))
    else Some(ElementMarkdown(elems, i, level))
  }

  /** For lower-case tags the source and the corrected rendering agree. */
  lemma AsWrittenAgreesOnLowerCase(elems: seq<XNode>, i: nat, level: nat)
    requires i < |elems| && ToLower(LocalName(elems[i])) == LocalName(elems[i])
    ensures ElementMarkdownAsWritten(elems, i, level) == Some(ElementMarkdown(elems, i, level))
  {
    var name := LocalName(elems[i]);
    var tag := TagOfElement(elems[i]);
    if tag.ExceptionTag? || tag.SeeAlsoTag? {
      assert name == if tag.ExceptionTag? then "exception" else "seealso";
      var f := FirstIndexNamed(elems, name).value;
      assert f == i <==> FirstNamed(elems, i, name) by {
        if f < i {
          assert LocalName(elems[f]) == name;
        }
      }
    }
  }

  /** An exception tag in another case, such as `<Exception>`, with no sibling
      named exactly `exception`: the source throws, while the corrected
      rendering writes the group heading and the entry. */
  lemma AsWrittenThrows(elems: seq<XNode>, i: nat, level: nat)
    requires i < |elems| && ToLower(LocalName(elems[i])) == "exception"
    requires forall j :: 0 <= j < |elems| ==> LocalName(elems[j]) != "exception"
    ensures ElementMarkdownAsWritten(elems, i, level).None?
    ensures FirstNamed(elems, i, LocalName(elems[i])) ==>
      ElementMarkdown(elems, i, level) == Heading(level, "Exceptions") + EntryLines(elems[i])
  {
    var e := elems[i];
    var name := LocalName(e);
    assert TagOfElement(e) == ExceptionTag;
    assert FirstIndexNamed(elems, "exception").None?;
    GroupNameIsLower(name);
    assert !IsGroupName(name) by {
      assert name != "exception";
    }
    if FirstNamed(elems, i, name) {
      assert ElementBody(elems, i, level) == Heading(level, "Exceptions") + EntryLines(e);
    }
  }

  /** `<Exception>` is such a tag. */
  lemma CapitalisedExceptionTag()
    ensures ToLower("Exception") == "exception" && "Exception" != "exception"
  {
    var r := ToLower("Exception");
    assert |r| == 9 && r[0] == 'e';
    assert "Exception"[0] != "exception"[0];
  }

  // ---------------------------------------------------------------------------
  // ProcessXmlElement: the method

  /** ProcessXmlElement: appends the Markdown of the i-th top-level element. */
  method ProcessXmlElement(elems: seq<XNode>, i: nat, markdown: StringBuilder, level: nat)
    requires i < |elems| && elems[i].XElement?
    modifies markdown
    ensures markdown.text == old(markdown.text) + ElementMarkdown(elems, i, level)
  {
    var name := elems[i].name;
    AppendElementBody(elems, i, markdown, level);
    if LastNamed(elems, i, name) && IsGroupName(name) {
      markdown.AppendLine("");
    }
  }

  /** The switch of ProcessXmlElement on the lower-cased tag name. */
  method AppendElementBody(elems: seq<XNode>, i: nat, markdown: StringBuilder, level: nat)
    requires i < |elems| && elems[i].XElement?
    modifies markdown
    ensures markdown.text == old(markdown.text) + ElementBody(elems, i, level)
  {
    var tag := TagOf(ToLower(elems[i].name));
    assert tag == TagOfElement(elems[i]);
    if IsGrouped(tag) {
      AppendGroupEntry(elems, i, markdown, level);
    } else {
      AppendSection(elems[i], markdown, level);
    }
  }

  /** A parameter, exception or see-also entry, headed when it is the first of its name. */
  method AppendGroupEntry(elems: seq<XNode>, i: nat, markdown: StringBuilder, level: nat)
    requires i < |elems| && elems[i].XElement? && IsGrouped(TagOfElement(elems[i]))
    modifies markdown
    ensures markdown.text == old(markdown.text) +
      (if FirstNamed(elems, i, LocalName(elems[i])) then Heading(level, GroupTitle(elems[i])) else "") + EntryLines(elems[i])
  {
    AppendGroupHeading(elems, i, markdown, level, GroupTitle(elems[i]));
    AppendEntry(elems[i], markdown);
  }

  /** The summary, returns, value, remarks and example sections, and any other
      tag. The returns, value, remarks and example cases write what
      ProcessCustomXmlElement writes, so they share it here. */
  method AppendSection(element: XNode, markdown: StringBuilder, level: nat)
    requires element.XElement? && !IsGrouped(TagOfElement(element))
    modifies markdown
    ensures markdown.text == old(markdown.text) + SectionMarkdown(element, level)
  {
    if TagOf(ToLower(element.name)).SummaryTag? {
      AppendSummary(element, markdown);
    } else {
      ProcessCustomXmlElement(element, markdown, level);
    }
  }

  /** The summary: its text and a blank line, with no heading. */
  method AppendSummary(element: XNode, markdown: StringBuilder)
    requires element.XElement?
    modifies markdown
    ensures markdown.text == old(markdown.text) + Line(ElementText(element)) + NewLine
  {
    var text := FormatXmlElement(element);
    markdown.AppendLine(text);
    markdown.AppendLine("");
    assert Line("") == NewLine;
  }

  /** The heading line written before the first entry of a group, and only there. */
  method AppendGroupHeading(elems: seq<XNode>, i: nat, markdown: StringBuilder, level: nat, title: string)
    requires i < |elems|
    modifies markdown
    ensures markdown.text == old(markdown.text) + (if FirstNamed(elems, i, LocalName(elems[i])) then Heading(level, title) else "")
  {
    if FirstNamed(elems, i, LocalName(elems[i])) {
      markdown.AppendLine(Repeat('#', level + 1) + " " + title);
    }
  }

  /** The entry line of a parameter, an exception or a see-also reference. */
  method AppendEntry(element: XNode, markdown: StringBuilder)
    requires element.XElement? && IsGrouped(TagOfElement(element))
    modifies markdown
    ensures markdown.text == old(markdown.text) + EntryLines(element)
  {
    var tag := TagOf(ToLower(element.name));
    if tag.ExceptionTag? {
      var cref := AttributeOrEmpty(element, "cref");
      var text := FormatXmlElement(element);
      markdown.AppendLine("- `" + FormatCref(cref) + "`: " + text);
    } else if tag.SeeAlsoTag? {
      var cref := AttributeOrEmpty(element, "cref");
      var href := AttributeOrEmpty(element, "href");
      if cref != "" {
        markdown.AppendLine("- " + FormatCref(cref));
      } else if href != "" {
        markdown.AppendLine("- [" + Value(element) + "](" + href + ")");
      }
    } else {
      var paramName := AttributeOrEmpty(element, "name");
      var text := FormatXmlElement(element);
      markdown.AppendLine("- `" + paramName + "`: " + text);
    }
  }

  /** ProcessCustomXmlElement: a heading named after the tag, its text, a blank line. */
  method ProcessCustomXmlElement(element: XNode, markdown: StringBuilder, level: nat)
    requires element.XElement?
    modifies markdown
    ensures markdown.text == old(markdown.text) + Heading(level, Capitalize(element.name)) + Line(ElementText(element)) + NewLine
  {
    markdown.AppendLine(Repeat('#', level + 1) + " " + Capitalize(element.name));
    var text := FormatXmlElement(element);
    markdown.AppendLine(text);
    markdown.AppendLine("");
  }
}
