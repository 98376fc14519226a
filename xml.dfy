/** The part of the LINQ to XML tree the renderer reads: elements with their
    local names, attributes and child nodes, and text nodes. Parsing an XML
    document is not modelled; the renderer receives the parser as a value. */
module Xml {
  import opened Text

  /** A node: text (CDATA included), an element, or any other node (comment,
      processing instruction), which the renderer ignores. */
  datatype XNode =
    | XText(value: string)
    | XElement(name: string, attributes: seq<(string, string)>, nodes: seq<XNode>)
    | XOther

  /** The result of XDocument.Parse: the root element, or the message of the
      XmlException it throws. */
  datatype XmlParse = Parsed(root: XNode) | XmlError(message: string)

  /** The child nodes of an element (none for any other node). */
  function Nodes(n: XNode): seq<XNode> {
    if n.XElement? then n.nodes else []
  }

  /** XElement.Attribute(name)?.Value: the value of the first attribute with that name. */
  function Attribute(attributes: seq<(string, string)>, name: string): (r: Option<string>)
    ensures r.None? <==> forall k :: 0 <= k < |attributes| ==> attributes[k].0 != name
    ensures r.Some? ==> (name, r.value) in attributes
  {
    if attributes == [] then None
    else if attributes[0].0 == name then Some(attributes[0].1)
    else Attribute(attributes[1..], name)
  }

  /** The attribute's value, or "" when it is missing: a null string in an
      interpolation, or handed to IsNullOrEmpty, behaves as "". */
  function AttributeOrEmpty(n: XNode, name: string): string {
    if n.XElement? then
      match Attribute(n.attributes, name)
      case Some(v) => v
      case None => ""
    else ""
  }

  /** XElement.Value: the text of every descendant text node, in document order. */
  function Value(n: XNode): string
    decreases n, 1
  {
    match n
    case XText(v) => v
    case XElement(_, _, nodes) => NodesValue(nodes)
    case XOther => ""
  }

  function NodesValue(nodes: seq<XNode>): string
    decreases nodes, 0
  {
    if nodes == [] then "" else Value(nodes[0]) + NodesValue(nodes[1..])
  }

  /** Elements(): the child elements, in document order. */
  function Elements(nodes: seq<XNode>): (r: seq<XNode>)
    ensures forall k :: 0 <= k < |r| ==> r[k].XElement? && r[k] in nodes
  {
    if nodes == [] then []
    else (if nodes[0].XElement? then [nodes[0]] else []) + Elements(nodes[1..])
  }

  /** Elements(name): the child elements with that local name, in document order. */
  function ElementsNamed(nodes: seq<XNode>, name: string): (r: seq<XNode>)
    ensures forall k :: 0 <= k < |r| ==> r[k].XElement? && r[k].name == name && r[k] in nodes
  {
    if nodes == [] then []
    else (if nodes[0].XElement? && nodes[0].name == name then [nodes[0]] else []) + ElementsNamed(nodes[1..], name)
  }

  /** Element(name): the first child element with that local name, if any. */
  function Element(nodes: seq<XNode>, name: string): (r: Option<XNode>)
    ensures r.Some? ==> r.value.XElement? && r.value.name == name && r.value in nodes
  {
    if nodes == [] then None
    else if nodes[0].XElement? && nodes[0].name == name then Some(nodes[0])
    else Element(nodes[1..], name)
  }

  /** Element(name) is the head of Elements(name), and is missing exactly when
      there is no such element. */
  lemma {:induction false} ElementIsFirst(nodes: seq<XNode>, name: string)
    ensures Element(nodes, name).None? <==> ElementsNamed(nodes, name) == []
    ensures Element(nodes, name).Some? ==> Element(nodes, name).value == ElementsNamed(nodes, name)[0]
  {
    if nodes != [] {
      ElementIsFirst(nodes[1..], name);
    }
  }

  /** Elements(name) picks out of Elements() those with that name. */
  lemma {:induction false} ElementsNamedOfElements(nodes: seq<XNode>, name: string)
    ensures ElementsNamed(nodes, name) == ElementsNamed(Elements(nodes), name)
  {
    if nodes != [] {
      ElementsNamedOfElements(nodes[1..], name);
      var e := Elements(nodes);
      if nodes[0].XElement? {
        assert e == [nodes[0]] + Elements(nodes[1..]);
        assert e[1..] == Elements(nodes[1..]);
      } else {
        assert e == Elements(nodes[1..]);
      }
    }
  }

  lemma {:induction false} ElementsAppend(a: seq<XNode>, b: seq<XNode>)
    ensures Elements(a + b) == Elements(a) + Elements(b)
  {
    if a == [] {
      assert a + b == b;
    } else {
      assert (a + b)[1..] == a[1..] + b;
      ElementsAppend(a[1..], b);
    }
  }

  /** Text and other non-element nodes between elements do not change Elements(). */
  lemma IgnoresText(a: seq<XNode>, n: XNode, b: seq<XNode>)
    requires !n.XElement?
    ensures Elements(a + [n] + b) == Elements(a + b)
  {
    ElementsAppend(a + [n], b);
    ElementsAppend(a, [n]);
    ElementsAppend(a, b);
  }

  lemma {:induction false} ElementsNamedSnoc(front: seq<XNode>, last: XNode, name: string)
    ensures ElementsNamed(front + [last], name) ==
      ElementsNamed(front, name) + (if last.XElement? && last.name == name then [last] else [])
  {
    if front == [] {
      assert front + [last] == [last];
    } else {
      assert (front + [last])[1..] == front[1..] + [last];
      ElementsNamedSnoc(front[1..], last, name);
    }
  }

  /** Elements(name) of a non-empty sequence, split before its last node. */
  lemma ElementsNamedLast(nodes: seq<XNode>, name: string)
    requires nodes != []
    ensures ElementsNamed(nodes, name) == ElementsNamed(nodes[..|nodes| - 1], name) +
      (if nodes[|nodes| - 1].XElement? && nodes[|nodes| - 1].name == name then [nodes[|nodes| - 1]] else [])
  {
    ElementsNamedSnoc(nodes[..|nodes| - 1], nodes[|nodes| - 1], name);
    assert nodes[..|nodes| - 1] + [nodes[|nodes| - 1]] == nodes;
  }
}
