/**
  An abstraction of the page's DOM as the extension observes it. An element is the list
  of the text nodes below it, each with the tag names of the elements that lie between
  the element and that text; `alt` and `src` are the element's image properties ("" when
  the element has none). `document.querySelector` is a snapshot map from a selector to
  the first element it matches.
 */
module Dom {
  import opened Wrappers

  datatype TextPiece = TextPiece(path: seq<string>, text: string)

  datatype Element = Element(tag: string, pieces: seq<TextPiece>, alt: string, src: string)

  /** `document.querySelector` on one state of the page. */
  type Query = map<string, Element>

  function QuerySelector(q: Query, selector: string): Option<Element> {
    if selector in q then Some(q[selector]) else None
  }

  function ConcatText(ps: seq<TextPiece>): string {
    if ps == [] then "" else ConcatText(ps[..|ps| - 1]) + ps[|ps| - 1].text
  }

  /** `textContent` (and, in this model, `innerText`): the element's text in document order. */
  function TextContent(e: Element): string {
    ConcatText(e.pieces)
  }

  /** The descendants removed before reading a description: `button, svg, li-icon, script, style`. */
  const NoiseTags: set<string> := {"button", "svg", "li-icon", "script", "style"}

  /** A text node that lies inside a noise element below the root. */
  predicate IsNoise(p: TextPiece) {
    exists k :: 0 <= k < |p.path| && p.path[k] in NoiseTags
  }

  /** The text nodes of `ps` outside every noise element, in their original order. */
  function KeptPieces(ps: seq<TextPiece>): (r: seq<TextPiece>)
    ensures |r| <= |ps|
  {
    if ps == [] then []
    else
      var last := ps[|ps| - 1];
      var init := ps[..|ps| - 1];
      assert ps == init + [last];
      KeptPieces(init) + (if IsNoise(last) then [] else [last])
  }

  /** The clone of `e` with every noise descendant removed; the root itself is never removed. */
  function StripNoise(e: Element): Element {
    e.(pieces := KeptPieces(e.pieces))
  }

  lemma KeptPiecesSnoc(ps: seq<TextPiece>, p: TextPiece)
    ensures KeptPieces(ps + [p]) == KeptPieces(ps) + (if IsNoise(p) then [] else [p])
  {
    assert (ps + [p])[..|ps|] == ps;
  }

  /** One step of the removal loop: `pieces` holds the kept part of `ps[..k]`, `i` pieces
      long, followed by `ps[k..]`; the piece at `i` is `ps[k]`, and it is either removed
      or stepped over. */
  lemma {:induction false} RemovalStep(ps: seq<TextPiece>, pieces: seq<TextPiece>, i: nat, k: nat)
    requires k < |ps|
    requires pieces == KeptPieces(ps[..k]) + ps[k..] && i == |KeptPieces(ps[..k])|
    ensures i < |pieces| && pieces[i] == ps[k]
    ensures IsNoise(ps[k]) ==>
      pieces[..i] + pieces[i + 1..] == KeptPieces(ps[..k + 1]) + ps[k + 1..] &&
      i == |KeptPieces(ps[..k + 1])|
    ensures !IsNoise(ps[k]) ==>
      pieces == KeptPieces(ps[..k + 1]) + ps[k + 1..] && i + 1 == |KeptPieces(ps[..k + 1])|
  {
    assert ps[..k + 1] == ps[..k] + [ps[k]];
    assert ps[k..] == [ps[k]] + ps[k + 1..];
    KeptPiecesSnoc(ps[..k], ps[k]);
    if IsNoise(ps[k]) {
      assert pieces[..i] == KeptPieces(ps[..k]);
      assert pieces[i + 1..] == ps[k + 1..];
    }
  }

  /** `e.cloneNode(true)` followed by `remove()` on every noise descendant of the clone.
      The element `e` itself is a value and is left as it was. */
  method CloneWithoutNoise(e: Element) returns (clone: Element)
    ensures clone == StripNoise(e)
  {
    clone := e;
    var pieces := clone.pieces;
    var i := 0;
    ghost var k := 0;
    while i < |pieces|
      invariant 0 <= k <= |e.pieces|
      invariant pieces == KeptPieces(e.pieces[..k]) + e.pieces[k..]
      invariant i == |KeptPieces(e.pieces[..k])|
      decreases |e.pieces| - k
    {
      RemovalStep(e.pieces, pieces, i, k);
      if IsNoise(pieces[i]) {
        pieces := pieces[..i] + pieces[i + 1..];
      } else {
        i := i + 1;
      }
      k := k + 1;
    }
    assert e.pieces[..k] == e.pieces;
    clone := clone.(pieces := pieces);
  }

  /** The kept pieces are exactly the pieces outside every noise element. */
  lemma {:induction false} KeptPiecesMembers(ps: seq<TextPiece>)
    ensures forall i :: 0 <= i < |KeptPieces(ps)| ==>
      !IsNoise(KeptPieces(ps)[i]) && KeptPieces(ps)[i] in ps
    ensures forall p :: p in ps && !IsNoise(p) ==> p in KeptPieces(ps)
  {
    if ps != [] {
      var init := ps[..|ps| - 1];
      assert ps == init + [ps[|ps| - 1]];
      KeptPiecesMembers(init);
    }
  }

  /** After stripping, no text from inside a noise element is left, and every text
      outside the noise elements is still there. */
  lemma StripNoiseLeavesNoNoise(e: Element)
    ensures forall i :: 0 <= i < |StripNoise(e).pieces| ==> !IsNoise(StripNoise(e).pieces[i])
    ensures forall p :: p in e.pieces && !IsNoise(p) ==> p in StripNoise(e).pieces
  {
    KeptPiecesMembers(e.pieces);
  }

  /** Stripping an element that has no noise descendants changes nothing. */
  lemma {:induction false} KeptPiecesOfClean(ps: seq<TextPiece>)
    requires forall i :: 0 <= i < |ps| ==> !IsNoise(ps[i])
    ensures KeptPieces(ps) == ps
  {
    if ps != [] {
      KeptPiecesOfClean(ps[..|ps| - 1]);
    }
  }

  /** Stripping twice is stripping once. */
  lemma StripNoiseIdempotent(e: Element)
    ensures StripNoise(StripNoise(e)) == StripNoise(e)
  {
    KeptPiecesMembers(e.pieces);
    KeptPiecesOfClean(KeptPieces(e.pieces));
  }
}
