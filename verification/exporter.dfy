/** Values shared by the two builders: the content record being exported and
    the components the exporter emits for it. The content source and the
    component factory are collaborators outside this model; they appear here
    only as the data they hand to the builders. */
module Exporter {

  datatype Option<+T> = None | Some(value: T)

  /** The anchor descriptor attached to an anchorable component: which
      component it is pinned to and with what geometry. */
  datatype AnchorDescriptor = AnchorDescriptor(
    targetComponentIdentifier: string,
    targetAnchorPosition: string,
    rangeStart: int,
    rangeLength: int)

  /** One exported component. `kind` is the factory shortname ("cover",
      "title", "byline", "blockquote", or a body-derived kind), `text` the
      markup it was built from. `identifier` and `anchor` are the two JSON
      fields the anchoring pass may set after construction. */
  datatype Component = Component(
    kind: string,
    text: string,
    anchorable: bool,
    identifier: Option<string>,
    anchor: Option<AnchorDescriptor>)

  /** A first-level body node, represented by the components the component
      factory derives from it (possibly none, possibly several). */
  datatype Node = Node(components: seq<Component>)

  /** The content record. An absent optional field is the empty string;
      `pullquote` and `pullquotePosition` are the two settings read by the
      component builder. */
  datatype Content = Content(
    title: string,
    byline: string,
    cover: string,
    intro: string,
    nodes: seq<Node>,
    pullquote: string,
    pullquotePosition: int)

  /** The factory's construction from a shortname and markup: a fresh
      component, not anchorable, with neither identifier nor anchor. */
  function GetComponent(shortname: string, html: string): (c: Component)
    ensures c.kind == shortname && c.text == html
    ensures !c.anchorable && c.identifier.None? && c.anchor.None?
  {
    Component(shortname, html, false, None, None)
  }

  /** A component straight out of the factory carries no identifier and no
      anchor; only the anchoring pass sets them. */
  predicate Pristine(c: Component)
  {
    c.identifier.None? && c.anchor.None?
  }
}
