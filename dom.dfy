/**
  The browser page as data. The harvester only ever asks an element for the
  elements a selector matches inside it, for an attribute, or for its inner
  text, so an element is modelled as the answers to those questions.
  */
module Dom {
  import opened Wrappers

  /** A matched element: its attributes and its rendered inner text. */
  datatype Node = Node(attrs: map<string, string>, innerText: string)

  /** A candidate post container: for each selector, what `query_selector_all`
      answers inside it, in document order (an absent selector matches nothing). */
  datatype Container = Container(queries: map<string, seq<Node>>)

  /** One snapshot of the saved-posts page: for each container selector, the
      containers `page.query_selector_all` answers, in document order. */
  datatype Page = Page(queries: map<string, seq<Container>>)

  /** `element.query_selector_all(selector)` */
  function QueryAll(c: Container, selector: string): seq<Node> {
    if selector in c.queries then c.queries[selector] else []
  }

  /** `element.query_selector(selector)`: the first match, if any. */
  function QuerySelector(c: Container, selector: string): (r: Option<Node>)
    ensures r.None? <==> QueryAll(c, selector) == []
    ensures r.Some? ==> r.value == QueryAll(c, selector)[0]
  {
    var all := QueryAll(c, selector);
    if all == [] then None else Some(all[0])
  }

  /** `page.query_selector_all(selector)` */
  function PageQueryAll(p: Page, selector: string): seq<Container> {
    if selector in p.queries then p.queries[selector] else []
  }

  /** `node.get_attribute(name)`: `None` when the attribute is absent. */
  function Attribute(n: Node, name: string): Option<string> {
    if name in n.attrs then Some(n.attrs[name]) else None
  }

  /** The attribute's value where Python only tests its truthiness: an absent
      attribute and an empty one both read as "". */
  function AttributeText(n: Node, name: string): (r: string)
    ensures r != "" <==> name in n.attrs && n.attrs[name] != ""
  {
    if name in n.attrs then n.attrs[name] else ""
  }
}
