/** Properties of the assembled component list. */
module ComponentsProperties {
  import opened Exporter
  import Tokens
  import opened Components

  /** No component of s carries an identifier yet. */
  predicate NoIdentifiers(s: seq<Component>)
  {
    forall x :: x in s ==> x.identifier.None?
  }

  /** An anchored component refers to exactly one target in the anchored
      body, and that target is its immediate predecessor: the identifier its
      anchor names is carried by the component before it and by no other. */
  lemma AnchorTargetUnique(s: seq<Component>, firstToken: nat, j: nat, k: nat)
    requires LeadingNotAnchorable(s) && NoIdentifiers(s)
    requires j < |s| && s[j].anchorable && k < |s|
    ensures var r := Anchored(s, firstToken);
      && r[j].anchor.Some?
      && (r[k].identifier == Some(r[j].anchor.value.targetComponentIdentifier) <==> k + 1 == j)
  {
    var r := Anchored(s, firstToken);
    var tj := TokenAt(s, firstToken, j);
    assert r[j].anchor == Some(AnchorTo(Tokens.Identifier(tj)));
    assert r[j].anchor.value.targetComponentIdentifier == Tokens.Identifier(tj);
    if k + 1 == j {
      assert r[k].identifier == Some(Tokens.Identifier(tj));
    } else {
      if k + 1 < |s| && s[k + 1].anchorable {
        var tk := TokenAt(s, firstToken, k + 1);
        assert r[k].identifier == Some(Tokens.Identifier(tk));
        if k + 1 < j {
          TokenAtIncreasing(s, firstToken, k + 1, j);
        } else {
          TokenAtIncreasing(s, firstToken, j, k + 1);
        }
        Tokens.IdentifiersDistinct(tk, tj);
        assert r[k].identifier != Some(Tokens.Identifier(tj));
      } else {
        assert s[k] in s;
        assert r[k].identifier == s[k].identifier == None;
        assert r[k].identifier != Some(Tokens.Identifier(tj));
      }
    }
  }

  /** The pullquote component is built without an identifier, so inserting
      it keeps a body free of identifiers. */
  lemma WithPullquoteNoIdentifiers(flat: seq<Component>, pullquote: string, position: int)
    requires NoIdentifiers(flat)
    ensures NoIdentifiers(WithPullquote(flat, pullquote, position))
  {
    if PullquoteEnabled(pullquote, position) && position <= |flat| {
      var body := WithPullquote(flat, pullquote, position);
      forall x | x in body ensures x.identifier.None? {
        assert x in flat[..position] || x == PullquoteComponent(pullquote) || x in flat[position..];
      }
    }
  }

  /** In the assembled article every anchor names an identifier that exists
      exactly once, on the component right before the anchored one, and the
      anchored component is a body component with a body component before
      it (never a meta component, never the first body component). */
  lemma AssembledAnchorsResolve(c: Content, firstToken: nat, j: nat, k: nat)
    requires LeadingNotAnchorable(Flatten(c.nodes)) && NoIdentifiers(Flatten(c.nodes))
    requires j < |Assembled(c, firstToken)| && Assembled(c, firstToken)[j].anchorable
    requires k < |Assembled(c, firstToken)|
    ensures |MetaOf(c)| < j
    ensures var r := Assembled(c, firstToken);
      && r[j].anchor.Some?
      && (r[k].identifier == Some(r[j].anchor.value.targetComponentIdentifier) <==> k + 1 == j)
  {
    var meta, body := MetaOf(c), SplitBody(c);
    var r := Assembled(c, firstToken);
    PullquoteNeverFirst(Flatten(c.nodes), c.pullquote, c.pullquotePosition);
    WithPullquoteNoIdentifiers(Flatten(c.nodes), c.pullquote, c.pullquotePosition);
    var anchored := Anchored(body, firstToken);
    assert r == meta + anchored;
    if j < |meta| {
      assert false;
    }
    assert anchored[j - |meta|] == r[j];
    assert body[j - |meta|].anchorable;
    AnchorTargetUnique(body, firstToken, j - |meta|, if k < |meta| then 0 else k - |meta|);
    if k < |meta| {
      assert Pristine(meta[k]);
    } else {
      assert anchored[k - |meta|] == r[k];
    }
  }

  /** The article opens with the meta components, and the body that follows
      keeps the order, kinds, texts and anchorable flags of the split body:
      anchoring only adds identifiers and anchors. */
  lemma AssembledLayout(c: Content, firstToken: nat)
    requires LeadingNotAnchorable(Flatten(c.nodes))
    ensures var r, meta, body := Assembled(c, firstToken), MetaOf(c), SplitBody(c);
      && |r| == |meta| + |body|
      && r[..|meta|] == meta
      && (c.cover != "" ==> r[0] == GetComponent("cover", c.cover))
      && r[TitleIndex(c)] == GetComponent("title", ContentTitle(c))
      && forall k :: 0 <= k < |body| ==>
           r[|meta| + k].kind == body[k].kind && r[|meta| + k].text == body[k].text
           && r[|meta| + k].anchorable == body[k].anchorable
  {
    var r, meta, body := Assembled(c, firstToken), MetaOf(c), SplitBody(c);
    PullquoteNeverFirst(Flatten(c.nodes), c.pullquote, c.pullquotePosition);
    var anchored := Anchored(body, firstToken);
    assert r == meta + anchored;
    assert r[..|meta|] == meta;
    forall k | 0 <= k < |body|
      ensures r[|meta| + k].kind == body[k].kind && r[|meta| + k].text == body[k].text
           && r[|meta| + k].anchorable == body[k].anchorable
    {
      assert r[|meta| + k] == anchored[k];
    }
  }

  /** A component with its generated tokens blanked out: whether it has an
      identifier and an anchor is kept, and so is the anchor's geometry, but
      not the identifier text the token spells. */
  function Erased(x: Component): Component
  {
    x.(identifier := if x.identifier.Some? then Some("") else None,
       anchor := if x.anchor.Some? then Some(x.anchor.value.(targetComponentIdentifier := "")) else None)
  }

  /** Anchoring with two token sources gives the same components once the
      tokens are blanked out. */
  lemma AnchoredErasedIndependent(s: seq<Component>, t0: nat, t1: nat, k: nat)
    requires LeadingNotAnchorable(s) && k < |s|
    ensures Erased(Anchored(s, t0)[k]) == Erased(Anchored(s, t1)[k])
  {
    assert Anchored(s, t0)[k] == Stage(s, t0, |s|, k);
    assert Anchored(s, t1)[k] == Stage(s, t1, |s|, k);
  }

  /** Two assemblies of the same content with different token sources are
      identical except for the generated tokens: same length, and at every
      index the same kind, text and flag, an identifier on the same
      components, and anchors on the same components with the same
      geometry. */
  lemma AssemblyIndependentOfTokens(c: Content, t0: nat, t1: nat)
    requires LeadingNotAnchorable(Flatten(c.nodes))
    ensures var r0, r1 := Assembled(c, t0), Assembled(c, t1);
      && |r0| == |r1|
      && forall k :: 0 <= k < |r0| ==> Erased(r0[k]) == Erased(r1[k])
  {
    AssembledLayout(c, t0);
    AssembledLayout(c, t1);
    PullquoteNeverFirst(Flatten(c.nodes), c.pullquote, c.pullquotePosition);
    var r0, r1, meta, body := Assembled(c, t0), Assembled(c, t1), MetaOf(c), SplitBody(c);
    assert r0 == meta + Anchored(body, t0);
    assert r1 == meta + Anchored(body, t1);
    forall k | 0 <= k < |r0|
      ensures Erased(r0[k]) == Erased(r1[k])
    {
      if k < |meta| {
        assert r0[k] == meta[k] == r1[k];
      } else {
        AnchoredErasedIndependent(body, t0, t1, k - |meta|);
        assert r0[k] == Anchored(body, t0)[k - |meta|];
        assert r1[k] == Anchored(body, t1)[k - |meta|];
      }
    }
  }
}
