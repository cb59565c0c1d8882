/** The component builder: turns a content record into the ordered list of
    components of an article. Meta components (cover, title, byline) come
    first; then the components derived from the body nodes, with an optional
    pullquote inserted after the Nth of them; every anchorable body component
    is then pinned to its predecessor through a freshly generated identifier.

    The token counter stands in for the exporter's unique-id generator: the
    operations that draw tokens take the first one as `firstToken` and return
    the next unused one. */
module Components {
  import opened Exporter
  import Tokens

  const UntitledArticle: string := "Untitled Article"
  const AnchorPosition: string := "center"

  // ---------------------------------------------------------------------
  // Meta components

  /** The title to export: the content's own title, or a fixed fallback when
      it has none. */
  function ContentTitle(c: Content): (title: string)
    ensures title != ""
    ensures c.title != "" ==> title == c.title
    ensures c.title == "" ==> title == UntitledArticle
  {
    if c.title != "" then c.title else UntitledArticle
  }

  /** Where the title component sits among the meta components. */
  function TitleIndex(c: Content): nat
  {
    if c.cover != "" then 1 else 0
  }

  /** The meta components of a content record: cover if present, then the
      title (always), then the byline if present. */
  function MetaOf(c: Content): (meta: seq<Component>)
    ensures |meta| == 1 + (if c.cover != "" then 1 else 0) + (if c.byline != "" then 1 else 0)
    ensures c.cover != "" ==> meta[0] == GetComponent("cover", c.cover)
    ensures meta[TitleIndex(c)] == GetComponent("title", ContentTitle(c))
    ensures c.byline != "" ==> meta[|meta| - 1] == GetComponent("byline", c.byline)
    ensures forall k :: 0 <= k < |meta| ==> (meta[k].kind == "title" <==> k == TitleIndex(c))
    ensures forall k :: 0 <= k < |meta| ==> !meta[k].anchorable && Pristine(meta[k])
  {
    (if c.cover != "" then [GetComponent("cover", c.cover)] else [])
    + [GetComponent("title", ContentTitle(c))]
    + (if c.byline != "" then [GetComponent("byline", c.byline)] else [])
  }

  /** Emits the meta components by appending them one at a time. */
  method MetaComponents(c: Content) returns (components: seq<Component>)
    ensures components == MetaOf(c)
  {
    components := [];
    if c.cover != "" {
      components := components + [GetComponent("cover", c.cover)];
    }
    components := components + [GetComponent("title", ContentTitle(c))];
    if c.byline != "" {
      components := components + [GetComponent("byline", c.byline)];
    }
  }

  // ---------------------------------------------------------------------
  // Body splitting and pullquote insertion

  /** The factory output for a run of body nodes, in node order. */
  function Flatten(nodes: seq<Node>): (flat: seq<Component>)
  {
    if nodes == [] then [] else Flatten(nodes[..|nodes| - 1]) + nodes[|nodes| - 1].components
  }

  lemma FlattenSnoc(nodes: seq<Node>, i: nat)
    requires i < |nodes|
    ensures Flatten(nodes[..i + 1]) == Flatten(nodes[..i]) + nodes[i].components
  {
    assert nodes[..i + 1][..i] == nodes[..i];
  }

  /** The component wrapping a pullquote: a blockquote, anchorable. */
  function PullquoteComponent(pullquote: string): (q: Component)
    ensures q.kind == "blockquote"
    ensures q.text == "<blockquote>" + pullquote + "</blockquote>"
    ensures q.anchorable && Pristine(q)
  {
    GetComponent("blockquote", "<blockquote>" + pullquote + "</blockquote>").(anchorable := true)
  }

  /** A pullquote is configured when its text is non-empty and its position
      is positive. */
  predicate PullquoteEnabled(pullquote: string, position: int)
    ensures PullquoteEnabled(pullquote, position) ==> pullquote != "" && position >= 1
  {
    pullquote != "" && position > 0
  }

  /** Reference definition of the body before anchoring: the factory
      components, with the pullquote placed directly after the Nth of them
      when a pullquote is configured and there are at least N components. */
  function WithPullquote(flat: seq<Component>, pullquote: string, position: int): seq<Component>
  {
    if PullquoteEnabled(pullquote, position) && position <= |flat| then
      flat[..position] + [PullquoteComponent(pullquote)] + flat[position..]
    else
      flat
  }

  /** The insertion is not yet done after `count` components. */
  predicate Pending(pullquote: string, position: int, count: int)
  {
    PullquoteEnabled(pullquote, position) && count < position
  }

  /** Without a configured pullquote, or with a position past the end, the
      body is exactly the factory output. */
  lemma PullquoteAbsent(flat: seq<Component>, pullquote: string, position: int)
    requires !PullquoteEnabled(pullquote, position) || position > |flat|
    ensures WithPullquote(flat, pullquote, position) == flat
  {
  }

  /** With a configured pullquote at 1 <= N <= |flat|, exactly one component
      is added, it is the pullquote, it sits at index N (right after the Nth
      factory component), and removing it gives back the factory output. */
  lemma PullquoteInsertedOnce(flat: seq<Component>, pullquote: string, position: int)
    requires PullquoteEnabled(pullquote, position) && position <= |flat|
    ensures var body := WithPullquote(flat, pullquote, position);
      && |body| == |flat| + 1
      && body[position] == PullquoteComponent(pullquote)
      && body[position].kind == "blockquote"
      && body[position].text == "<blockquote>" + pullquote + "</blockquote>"
      && body[position].anchorable
      && body[position - 1] == flat[position - 1]
      && body[..position] + body[position + 1..] == flat
      && multiset(body) == multiset(flat) + multiset{PullquoteComponent(pullquote)}
  {
  }

  /** The first body component is not anchorable (or there is none). */
  predicate LeadingNotAnchorable(s: seq<Component>)
  {
    s == [] || !s[0].anchorable
  }

  /** The pullquote never becomes the first body component: it always follows
      at least one factory component. Hence the anchoring pass gets a list
      whose head is anchorable only if the factory's head was. */
  lemma PullquoteNeverFirst(flat: seq<Component>, pullquote: string, position: int)
    ensures flat == [] ==> WithPullquote(flat, pullquote, position) == []
    ensures flat != [] ==> WithPullquote(flat, pullquote, position)[0] == flat[0]
    ensures LeadingNotAnchorable(flat) ==> LeadingNotAnchorable(WithPullquote(flat, pullquote, position))
  {
  }

  /** Once the insertion point has been passed, later components are simply
      appended. */
  lemma AppendAfterInsertion(flat: seq<Component>, more: seq<Component>, pullquote: string, position: int)
    requires !Pending(pullquote, position, |flat|)
    ensures WithPullquote(flat + more, pullquote, position) == WithPullquote(flat, pullquote, position) + more
  {
  }

  /** One more factory component while the insertion is still pending. */
  lemma StepWhilePending(flat: seq<Component>, x: Component, pullquote: string, position: int)
    requires Pending(pullquote, position, |flat|)
    ensures |flat| + 1 == position ==>
      WithPullquote(flat + [x], pullquote, position) == flat + [x] + [PullquoteComponent(pullquote)]
    ensures |flat| + 1 < position ==> WithPullquote(flat + [x], pullquote, position) == flat + [x]
  {
  }

  /** The state of the splitting loop after it has seen the factory
      components `seen`: the result so far is the reference body for them;
      while the insertion is pending the counter equals the number seen and
      the target position is untouched; afterwards insertion is switched
      off. */
  predicate Progress(seen: seq<Component>, result: seq<Component>, position: int, target: int,
                     pullquote: string, configured: int)
  {
    && position >= 0
    && result == WithPullquote(seen, pullquote, configured)
    && (Pending(pullquote, configured, |seen|) ==> target == configured && position == |seen|)
    && (!Pending(pullquote, configured, |seen|) ==> !PullquoteEnabled(pullquote, target))
  }

  /** One component through the insertion branch: count it, append it, and
      append the pullquote if the count has reached the target. */
  lemma ProgressStep(seen: seq<Component>, result: seq<Component>, position: int, target: int,
                     pullquote: string, configured: int, x: Component)
    requires pullquote != ""
    requires Progress(seen, result, position, target, pullquote, configured)
    ensures var hit := position + 1 == target;
      Progress(seen + [x], result + [x] + (if hit then [PullquoteComponent(pullquote)] else []),
               position + 1, if hit then 0 else target, pullquote, configured)
  {
    if Pending(pullquote, configured, |seen|) {
      StepWhilePending(seen, x, pullquote, configured);
    } else {
      AppendAfterInsertion(seen, [x], pullquote, configured);
    }
  }

  /** A whole node's components through the plain branch, taken when
      insertion is off. */
  lemma ProgressMerge(seen: seq<Component>, result: seq<Component>, position: int, target: int,
                      pullquote: string, configured: int, more: seq<Component>)
    requires !PullquoteEnabled(pullquote, target)
    requires Progress(seen, result, position, target, pullquote, configured)
    ensures Progress(seen + more, result + more, position, target, pullquote, configured)
  {
    AppendAfterInsertion(seen, more, pullquote, configured);
  }

  // ---------------------------------------------------------------------
  // Anchoring

  /** The number of anchorable components in s. */
  function CountAnchorable(s: seq<Component>): (n: nat)
    ensures n <= |s|
  {
    if s == [] then 0
    else CountAnchorable(s[..|s| - 1]) + (if s[|s| - 1].anchorable then 1 else 0)
  }

  lemma CountAnchorableSnoc(s: seq<Component>, i: nat)
    requires i < |s|
    ensures CountAnchorable(s[..i + 1]) == CountAnchorable(s[..i]) + (if s[i].anchorable then 1 else 0)
  {
    assert s[..i + 1][..i] == s[..i];
  }

  /** More of a list never holds fewer anchorable components. */
  lemma {:induction false} CountAnchorableMonotone(s: seq<Component>, i: nat, j: nat)
    requires i <= j <= |s|
    ensures CountAnchorable(s[..i]) <= CountAnchorable(s[..j])
    decreases j - i
  {
    if i < j {
      CountAnchorableSnoc(s, i);
      CountAnchorableMonotone(s, i + 1, j);
    }
  }

  /** The token drawn when the component at index k is anchored: one per
      anchorable component before it, starting from firstToken. */
  function TokenAt(s: seq<Component>, firstToken: nat, k: nat): nat
    requires k <= |s|
  {
    firstToken + CountAnchorable(s[..k])
  }

  /** Anchorable components draw strictly increasing tokens. */
  lemma TokenAtIncreasing(s: seq<Component>, firstToken: nat, i: nat, j: nat)
    requires i < j <= |s| && s[i].anchorable
    ensures TokenAt(s, firstToken, i) < TokenAt(s, firstToken, j)
  {
    CountAnchorableSnoc(s, i);
    CountAnchorableMonotone(s, i + 1, j);
  }

  /** The anchor descriptor pinning a component to the one carrying id. */
  function AnchorTo(id: string): (a: AnchorDescriptor)
    ensures a.targetComponentIdentifier == id
    ensures a.targetAnchorPosition == "center" && a.rangeStart == 0 && a.rangeLength == 1
  {
    AnchorDescriptor(id, AnchorPosition, 0, 1)
  }

  /** Component k once the anchoring pass has handled indices below `done`:
      it is a target if its successor is anchorable and already handled, and
      carries an anchor if it is anchorable and already handled. */
  function Stage(s: seq<Component>, firstToken: nat, done: nat, k: nat): Component
    requires k < |s| && done <= |s|
  {
    s[k].(
      identifier := if k + 1 < done && s[k + 1].anchorable
                    then Some(Tokens.Identifier(TokenAt(s, firstToken, k + 1)))
                    else s[k].identifier,
      anchor := if k < done && s[k].anchorable
                then Some(AnchorTo(Tokens.Identifier(TokenAt(s, firstToken, k))))
                else s[k].anchor)
  }

  /** Reference definition of the anchored body. */
  function Anchored(s: seq<Component>, firstToken: nat): (r: seq<Component>)
    requires LeadingNotAnchorable(s)
    ensures |r| == |s|
    ensures forall k :: 0 <= k < |s| ==>
      r[k].kind == s[k].kind && r[k].text == s[k].text && r[k].anchorable == s[k].anchorable
    ensures forall k :: 0 <= k < |s| && s[k].anchorable ==>
      && 0 < k
      && r[k].anchor == Some(AnchorTo(Tokens.Identifier(TokenAt(s, firstToken, k))))
      && r[k - 1].identifier == Some(Tokens.Identifier(TokenAt(s, firstToken, k)))
      && r[k].anchor.value.targetComponentIdentifier == r[k - 1].identifier.value
      && r[k].anchor.value.targetAnchorPosition == "center"
      && r[k].anchor.value.rangeStart == 0 && r[k].anchor.value.rangeLength == 1
    ensures forall k :: 0 <= k < |s| && !s[k].anchorable ==> r[k].anchor == s[k].anchor
    ensures forall k :: 0 <= k < |s| && (k + 1 == |s| || !s[k + 1].anchorable) ==>
      r[k].identifier == s[k].identifier
  {
    seq(|s|, k requires 0 <= k < |s| => Stage(s, firstToken, |s|, k))
  }

  /** The anchoring pass, in place. Requires that the first component is not
      anchorable: it has no predecessor to be pinned to. */
  method AnchorComponents(a: array<Component>, firstToken: nat) returns (nextToken: nat)
    requires LeadingNotAnchorable(a[..])
    modifies a
    ensures a[..] == Anchored(old(a[..]), firstToken)
    ensures nextToken == firstToken + CountAnchorable(old(a[..]))
  {
    ghost var s := a[..];
    var len := a.Length;
    nextToken := firstToken;
    var i := 0;
    while i < len
      invariant 0 <= i <= len
      invariant nextToken == TokenAt(s, firstToken, i)
      invariant forall k :: 0 <= k < len ==> a[k] == Stage(s, firstToken, i, k)
    {
      var component := a[i];
      if component.anchorable {
        var uid := nextToken;
        nextToken := nextToken + 1;
        var id := Tokens.Identifier(uid);
        a[i - 1] := a[i - 1].(identifier := Some(id));
        a[i] := component.(anchor := Some(AnchorTo(id)));
      }
      CountAnchorableSnoc(s, i);
      i := i + 1;
    }
    assert s[..len] == s;
  }

  /** Splits the body nodes into components, inserting the pullquote when it
      is configured, then anchors the result. */
  method SplitIntoComponents(c: Content, firstToken: nat) returns (body: seq<Component>, nextToken: nat)
    requires LeadingNotAnchorable(Flatten(c.nodes))
    ensures LeadingNotAnchorable(SplitBody(c))
    ensures body == Anchored(SplitBody(c), firstToken)
    ensures nextToken == firstToken + CountAnchorable(SplitBody(c))
  {
    var pullquote := c.pullquote;
    var pullquotePosition := c.pullquotePosition;
    var nodes := c.nodes;

    var result: seq<Component> := [];
    var position := 0;
    ghost var seen: seq<Component> := [];
    var i := 0;
    while i < |nodes|
      invariant 0 <= i <= |nodes|
      invariant seen == Flatten(nodes[..i])
      invariant Progress(seen, result, position, pullquotePosition, pullquote, c.pullquotePosition)
    {
      var components := nodes[i].components;
      FlattenSnoc(nodes, i);
      if pullquote != "" && pullquotePosition > 0 {
        ghost var before := seen;
        var j := 0;
        while j < |components|
          invariant 0 <= j <= |components|
          invariant seen == before + components[..j]
          invariant Progress(seen, result, position, pullquotePosition, pullquote, c.pullquotePosition)
        {
          var component := components[j];
          ProgressStep(seen, result, position, pullquotePosition, pullquote, c.pullquotePosition, component);
          position := position + 1;
          result := result + [component];
          if position == pullquotePosition {
            result := result + [PullquoteComponent(pullquote)];
            pullquotePosition := 0;
          }
          seen := seen + [component];
          assert components[..j + 1] == components[..j] + [component];
          j := j + 1;
        }
        assert components[..|components|] == components;
      } else {
        ProgressMerge(seen, result, position, pullquotePosition, pullquote, c.pullquotePosition, components);
        result := result + components;
        seen := seen + components;
      }
      i := i + 1;
    }
    assert nodes[..i] == nodes;

    PullquoteNeverFirst(Flatten(nodes), pullquote, c.pullquotePosition);
    var a := new Component[|result|](k requires 0 <= k < |result| => result[k]);
    assert a[..] == result;
    nextToken := AnchorComponents(a, firstToken);
    body := a[..];
  }

  // ---------------------------------------------------------------------
  // Whole article

  /** The body before anchoring. */
  function SplitBody(c: Content): seq<Component>
  {
    WithPullquote(Flatten(c.nodes), c.pullquote, c.pullquotePosition)
  }

  /** Reference definition of the assembled article: meta components, then
      the anchored body. */
  function Assembled(c: Content, firstToken: nat): (r: seq<Component>)
    requires LeadingNotAnchorable(Flatten(c.nodes))
  {
    PullquoteNeverFirst(Flatten(c.nodes), c.pullquote, c.pullquotePosition);
    MetaOf(c) + Anchored(SplitBody(c), firstToken)
  }

  /** Builds the whole component list: the meta components, then each body
      component appended in order. */
  method BuildComponents(c: Content, firstToken: nat) returns (components: seq<Component>, nextToken: nat)
    requires LeadingNotAnchorable(Flatten(c.nodes))
    ensures components == Assembled(c, firstToken)
    ensures nextToken == firstToken + CountAnchorable(SplitBody(c))
  {
    var meta := MetaComponents(c);
    var body;
    body, nextToken := SplitIntoComponents(c, firstToken);
    components := AppendAll(meta, body);
  }

  /** Appends each of `more` to `list`, one element at a time. */
  method AppendAll(list: seq<Component>, more: seq<Component>) returns (r: seq<Component>)
    ensures r == list + more
  {
    r := list;
    for k := 0 to |more|
      invariant r == list + more[..k]
    {
      r := r + [more[k]];
      assert more[..k + 1] == more[..k] + [more[k]];
    }
    assert more[..|more|] == more;
  }
}
