# Apple News exporter builders, in Dafny

This project models the two builders of the WordPress-to-Apple-News exporter
(`Exporter\Builders`).

- **Components** (`includes/exporter/builders/class-components.php`) turns a
  content record into the article's ordered component list. It works in
  three steps:
  - It emits the meta components: a cover if there is one, a title (always,
    `"Untitled Article"` when the content has none), and a byline if there is
    one.
  - It splits the body nodes into components. When a pullquote is configured
    at position N, a `blockquote` component wrapping it is inserted once,
    directly after the Nth body component, and is marked anchorable.
  - It anchors the body. Each anchorable component gives its predecessor the
    identifier `"component-" + token`. Its own anchor then names that
    identifier, with position `center`, range start 0 and length 1.
- **Metadata** (`includes/exporter/builders/class-metadata.php`) builds a
  string map. It holds `excerpt` (the intro) when there is an intro, and
  `thumbnailURL` (`"bundle://"` + the cover's file name) when there is a cover.

Files:

- `exporter.dfy` (module `Exporter`): the content record, components, anchor
  descriptors, and the factory's construction of a component from a
  shortname.
- `tokens.dfy` (module `Tokens`): the token counter that replaces `uniqid()`.
  It spells a token in decimal and forms `"component-" + token`. It proves
  that distinct tokens give distinct identifiers.
- `components.dfy` (module `Components`): the builder.
  - `MetaComponents`, `SplitIntoComponents`, `AnchorComponents` and
    `BuildComponents` are methods that follow the source's loops and appends.
  - `AnchorComponents` updates an array of components in place.
  - Each method is proved against a reference function: `MetaOf`,
    `WithPullquote`, `Anchored` and `Assembled`.
- `components_properties.dfy` (module `ComponentsProperties`): properties of
  the assembled list. They cover anchor/identifier uniqueness, layout, and
  independence from the token source.
- `metadata.dfy` (module `Metadata`): `Basename` and the metadata map.

Modelling choices:

- An optional field that is absent is the empty string. Presence means
  "non-empty".
- The factory's output for a body node is given: `Node.components`.
- Assumption about the factory, whose code is not part of this model:
  `Component_Factory::get_component(shortname, html)` is `GetComponent`,
  which returns a component of that kind and text that is not anchorable and
  has no identifier or anchor.
  - The source itself only guarantees that meta components are never
    anchored: they are serialised before the anchoring pass runs.
  - The claim in `AssembledAnchorsResolve` that an anchored component is
    never a meta component rests on this assumption.
- `uniqid()` is replaced by a counter. The caller passes the first token and
  gets back the next unused one.
- Assumption about the token source: tokens drawn within one assembly are
  distinct. The counter makes this true in the model. PHP's `uniqid()` does
  not guarantee it. `AnchorTargetUnique` and `AssembledAnchorsResolve` hold
  under this assumption.
- Each anchoring draws one token, so the tokens drawn are consecutive.
- The anchoring pass requires that the first body component is not
  anchorable. In the source, `$components[$i - 1]` at `$i == 0` has no
  element, and the following `set_json` call would be made on nothing.
  - The pullquote can never be that first component (`PullquoteNeverFirst`).
  - So the whole builder needs this only of the factory's first body
    component.
- "An anchor's target exists exactly once in the output" holds when the
  factory's components carry no identifier of their own. The model states it
  under that hypothesis. Nothing in the builder sets identifiers except the
  anchoring pass.

## Model

| member | source | states |
|---|---|---|
| `Components.ContentTitle` | includes/exporter/builders/class-components.php:146-148 | The exported title is never empty: it is the content's title when there is one, and "Untitled Article" otherwise. |
| `Components.MetaOf` | includes/exporter/builders/class-components.php:43-61 | The meta list has 1 + [cover] + [byline] components, in the order cover, title, byline. Exactly one of them is the title, at index 0 or 1 depending on the cover. None is anchorable and none has an identifier or anchor. |
| `Components.MetaComponents` | includes/exporter/builders/class-components.php:43-61 | Appending cover, title and byline step by step yields exactly the meta list `MetaOf`. |
| `Components.PullquoteEnabled` | includes/exporter/builders/class-components.php:107 | Insertion is on only with a non-empty pullquote and a position of at least 1, so the position is a 1-based ordinal. |
| `Components.PullquoteComponent` | includes/exporter/builders/class-components.php:115-116 | The inserted component has kind "blockquote" and text "<blockquote>" + pullquote + "</blockquote>". It is anchorable and carries no identifier or anchor. |
| `Components.AnchorTo` | includes/exporter/builders/class-components.php:81-86 | The anchor names the given identifier, with position "center", range start 0 and range length 1. |
| `Exporter.GetComponent` | includes/exporter/builders/class-components.php:131-133 | A component built from a shortname has that kind and that markup as text. It is not anchorable and has no identifier or anchor (an assumption about the factory). |
| `Tokens.Identifier` | includes/exporter/builders/class-components.php:80-82 | The identifier is "component-" followed by the token's spelling. |
| `Components.PullquoteAbsent` | includes/exporter/builders/class-components.php:107-125 | With an empty pullquote, a position <= 0, or a position past the last component, the body is the factory output unchanged: nothing is inserted. |
| `Components.PullquoteInsertedOnce` | includes/exporter/builders/class-components.php:110-121 | With a pullquote at 1 <= N <= the component count, the body has exactly one extra element. It is the blockquote wrapping the pullquote (kind "blockquote", text "<blockquote>" + pullquote + "</blockquote>", anchorable), at index N, right after the Nth factory component. Removing it gives back the factory output (multiset and order). |
| `Components.PullquoteNeverFirst` | includes/exporter/builders/class-components.php:111-117 | The body's first element is the factory's first component, so the inserted pullquote always has a predecessor. If the factory's first component is not anchorable, neither is the body's. |
| `Components.AppendAfterInsertion` | includes/exporter/builders/class-components.php:119-124 | Once the insertion point is passed (or insertion is off), further components are appended unchanged. This is why the pullquote appears at most once. |
| `Components.StepWhilePending` | includes/exporter/builders/class-components.php:111-118 | While insertion is pending, one more component is appended, followed by the pullquote exactly when the count reaches N. |
| `Components.ProgressStep` | includes/exporter/builders/class-components.php:110-121 | One pass of the inner loop (increment, append, compare, maybe insert and reset the target to 0) preserves the splitting invariant. |
| `Components.ProgressMerge` | includes/exporter/builders/class-components.php:122-125 | The `array_merge` branch, taken only when insertion is off, preserves the splitting invariant. |
| `Components.SplitIntoComponents` | includes/exporter/builders/class-components.php:95-129 | The nested loops with the running position counter compute the reference body `WithPullquote` of the concatenated factory output. The result is then anchored. It equals `Anchored` of that body and draws one token per anchorable component. |
| `Components.CountAnchorableMonotone` | includes/exporter/builders/class-components.php:70-78 | A longer prefix of the body never holds fewer anchorable components, so tokens are drawn in increasing order. |
| `Components.TokenAtIncreasing` | includes/exporter/builders/class-components.php:78 | An anchorable component draws a token strictly smaller than any component after it. |
| `Components.Anchored` | includes/exporter/builders/class-components.php:70-87 | Anchoring keeps length, order, kinds, texts and anchorable flags. Each anchorable component i has i > 0. Component i-1 gets the identifier "component-"+token. Component i gets an anchor whose target is that identifier, with position "center", range start 0 and range length 1. A component that is neither anchorable nor followed by an anchorable one keeps its identifier and anchor. |
| `Components.AnchorComponents` | includes/exporter/builders/class-components.php:67-90 | The in-place loop over the array leaves exactly `Anchored` of the old contents. It returns the counter advanced by the number of anchorable components. |
| `Components.BuildComponents` | includes/exporter/builders/class-components.php:30-36 | The article is the meta components followed by the anchored body, in order. |
| `Components.AppendAll` | includes/exporter/builders/class-components.php:32-34 | Appending each body component in turn yields the list followed by the body. |
| `ComponentsProperties.AnchorTargetUnique` | includes/exporter/builders/class-components.php:77-86 | Take a body whose components carry no identifiers. For each anchorable component, the identifier its anchor names is carried by its predecessor and by no other component. |
| `ComponentsProperties.WithPullquoteNoIdentifiers` | includes/exporter/builders/class-components.php:115-117 | The inserted pullquote carries no identifier, so insertion keeps a body free of identifiers. |
| `ComponentsProperties.AssembledAnchorsResolve` | includes/exporter/builders/class-components.php:30-36 | In the final article, every anchorable component is a body component after the first. The identifier its anchor names occurs exactly once in the whole article, on the component right before it. |
| `ComponentsProperties.AssembledLayout` | includes/exporter/builders/class-components.php:30-36 | The article starts with the meta components: a cover first when there is one, then the title. The body follows with the split body's order, kinds, texts and flags. |
| `ComponentsProperties.AnchoredErasedIndependent` | includes/exporter/builders/class-components.php:78-86 | Anchoring the same body with two token sources gives, at every index, the same component once the token text is blanked out: the token affects only the identifier and anchor-target text. |
| `ComponentsProperties.AssemblyIndependentOfTokens` | includes/exporter/builders/class-components.php:78 | Two assemblies of the same content with different token sources are identical once the tokens are blanked out. They have the same length, and at each index the same kind, text and anchorable flag. Identifiers sit on the same components, and anchors sit on the same components with the same geometry. |
| `Tokens.DecimalInjective` | includes/exporter/builders/class-components.php:78 | Distinct tokens have distinct spellings. |
| `Tokens.IdentifierInjective` | includes/exporter/builders/class-components.php:80-82 | "component-" + token determines the token, so identifiers from distinct tokens never collide. |
| `Metadata.Basename` | includes/exporter/builders/class-metadata.php:32 | The file name contains no '/'. It is a suffix of the path, and the character before it, if any, is '/'. So it is the text after the last '/'. |
| `Metadata.ToArray` | includes/exporter/builders/class-metadata.php:21-38 | `excerpt` is present iff the intro is non-empty, and then equals the intro. `thumbnailURL` is present iff the cover is non-empty, and then equals "bundle://" + Basename(cover). There are no other keys, and the map is empty when both are empty. |
| `Metadata.ThumbnailIsBundleFileName` | includes/exporter/builders/class-metadata.php:31-35 | The thumbnail URL starts with "bundle://". The rest contains no '/' and ends the cover path, so the cover's directories are dropped. |
| `Metadata.KeysIndependent` | includes/exporter/builders/class-metadata.php:26-35 | The excerpt depends only on the intro and the thumbnail only on the cover. Changing one leaves the other key unchanged. |

## Left out

- Serialisation (`Component::to_array()`): the output is the list of
  component values, not their JSON arrays.
- `set_json` and `set_anchorable`: these become field updates on the
  component values.
- The component factory's classification of body nodes
  (`get_components_from_node`) is not part of this model. Each node carries
  the components the factory derives from it.
- `uniqid()` is time-based in the source. Here it is a counter spelled in
  decimal. Only distinctness is modelled, not the format of the token.
- `content_id`, `content_text` and `content_intro` of the components builder
  are never used by it and are not modelled.
- The content accessors are read as fields of a record.
- PHP truthiness: the string "0" counts as empty in the source but as present
  here. A non-numeric or string-valued `pullquote_position` compared loosely
  with `==` and `>` is not modelled either: the position is an integer.
- Metadata.Basename: does not model PHP `basename`'s removal of trailing
  slashes (`"a/b/"` gives `"b"` in PHP and the empty name here), its suffix
  argument, or its locale handling.
- AnchorComponents: requires a first component that is not anchorable. In the
  source that case reaches `$components[-1]` and calls a method on nothing.
  The model excludes the case rather than reproducing it.
- SplitIntoComponents: the same requirement applies, to the factory's first
  body component.
- BuildComponents: the same requirement applies, to the factory's first body
  component.
- Object identity: the source's components are objects. The same object
  appearing twice in a list (aliasing) would receive both updates; here
  components are values, so such sharing is not modelled.
