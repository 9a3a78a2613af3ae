/**
  The parsed XML document as the converter sees it: an element is a tag, its
  attributes in document order (ElementTree's `attrib.items()` keeps insertion
  order) and its child elements in document order.  Text, tails, comments and
  processing instructions play no part in the conversion.
*/
module Xml {

  type Attr = (string, string)

  datatype Element = Element(tag: string, attrs: seq<Attr>, children: seq<Element>)

  /** What parsing the manifest file yields: the file is missing, the parser
      refused it (with its message), or the root element of the document. */
  datatype ParseOutcome = NotFound | Malformed(message: string) | Parsed(root: Element)
}
