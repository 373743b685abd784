/** The view of a parsed MARC-XML tree that the library relies on: an element
    has a name, attributes, its text content and its child elements in
    document order. Parsing and the CSS engine of the XML library are not part
    of this model; a CSS selection of fields or subfields is taken to be a
    filter over the direct children of an element, as MARC-XML nests them. */
module Xml {
  datatype Node = Element(name: string, attributes: map<string, string>, text: string, children: seq<Node>)

  /** `node['key']`; an absent attribute reads as the empty string. */
  function Attr(n: Node, key: string): string
  {
    if key in n.attributes then n.attributes[key] else ""
  }
}
