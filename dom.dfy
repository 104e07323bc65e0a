/**
 * The part of org.w3c.dom the parsers read: element nodes with a name and
 * ordered children, text nodes (text and CDATA sections), and every other
 * node kind (comments, processing instructions), which the parsers skip.
 */
module Dom {

  datatype Node =
    | Element(name: string, children: seq<Node>)
    | Text(data: string)
    | Other

  /**
   * Node.getTextContent: the text of a text node, or for an element the
   * concatenation of the text content of its children, comments and
   * processing instructions contributing nothing.
   */
  function TextContent(n: Node): string
    decreases n, 1
  {
    match n
    case Element(_, cs) => ChildrenText(cs)
    case Text(d) => d
    case Other => ""
  }

  function ChildrenText(cs: seq<Node>): string
    decreases cs, 0
  {
    if cs == [] then "" else TextContent(cs[0]) + ChildrenText(cs[1..])
  }

  /**
   * Node.getChildNodes: an element's children; every other node kind has
   * none.
   */
  function ChildNodes(n: Node): seq<Node>
  {
    if n.Element? then n.children else []
  }

  /** The element children of `cs` whose name is `name`, in document order. */
  function ElementsNamed(cs: seq<Node>, name: string): (r: seq<Node>)
    ensures |r| <= |cs|
    ensures forall i :: 0 <= i < |r| ==> r[i].Element? && r[i].name == name
  {
    if cs == [] then []
    else
      var last := cs[|cs| - 1];
      ElementsNamed(cs[..|cs| - 1], name) + (if last.Element? && last.name == name then [last] else [])
  }
}
