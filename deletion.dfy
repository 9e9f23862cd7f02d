/**
 * `delete_videos` (main.py:373-400): one `deleteObject` request per video
 * element, slide by slide, sent in one batch when there is at least one.
 */
module Deletion {
  import opened Deck

  /** The object ids of the video elements of one slide, in order. */
  function VideoIds(els: seq<PageElement>): seq<string>
    decreases |els|
  {
    if |els| == 0 then []
    else VideoIds(els[..|els| - 1]) + (if els[|els| - 1].video then [els[|els| - 1].objectId] else [])
  }

  /** The object ids of every video element of the deck, slide after slide. */
  function DeckVideoIds(slides: seq<Slide>): seq<string>
    decreases |slides|
  {
    if |slides| == 0 then [] else DeckVideoIds(slides[..|slides| - 1]) + VideoIds(slides[|slides| - 1].pageElements)
  }

  /** The positions of the video elements of a slide. */
  function VideoPositions(els: seq<PageElement>): set<nat> {
    set j: nat | j < |els| && els[j].video
  }

  /** One request per video element: the ids are exactly those of the video elements. */
  lemma {:induction false} VideoIdsExact(els: seq<PageElement>)
    ensures |VideoIds(els)| == |VideoPositions(els)|
    ensures forall id :: id in VideoIds(els) <==> exists j :: 0 <= j < |els| && els[j].video && els[j].objectId == id
    decreases |els|
  {
    if |els| > 0 {
      var init := els[..|els| - 1];
      var last := |els| - 1;
      VideoIdsExact(init);
      assert forall j :: 0 <= j < |init| ==> init[j] == els[j];
      if els[last].video {
        assert VideoPositions(els) == VideoPositions(init) + {last};
      } else {
        assert VideoPositions(els) == VideoPositions(init);
      }
    }
  }

  /** A deck's requests name exactly its video elements, across all slides. */
  lemma {:induction false} DeckVideoIdsExact(slides: seq<Slide>)
    ensures forall id :: id in DeckVideoIds(slides) <==>
              exists i, j :: 0 <= i < |slides| && 0 <= j < |slides[i].pageElements|
                             && slides[i].pageElements[j].video && slides[i].pageElements[j].objectId == id
    decreases |slides|
  {
    if |slides| > 0 {
      var init := slides[..|slides| - 1];
      var last := |slides| - 1;
      DeckVideoIdsExact(init);
      VideoIdsExact(slides[last].pageElements);
      assert forall i :: 0 <= i < |init| ==> init[i] == slides[i];
    }
  }

  lemma {:induction false} DeckVideoIdsAppend(a: seq<Slide>, b: seq<Slide>)
    ensures DeckVideoIds(a + b) == DeckVideoIds(a) + DeckVideoIds(b)
    decreases |b|
  {
    if |b| > 0 {
      var init := b[..|b| - 1];
      assert (a + b)[..|a + b| - 1] == a + init;
      DeckVideoIdsAppend(a, init);
    } else {
      assert a + b == a;
    }
  }

  /** `delete_videos`: the requests, and whether the batch is sent. */
  method DeleteVideos(slides: seq<Slide>) returns (requests: seq<string>, send: bool)
    ensures requests == DeckVideoIds(slides)
    ensures send <==> |requests| > 0
  {
    requests := [];
    for i := 0 to |slides|
      invariant requests == DeckVideoIds(slides[..i])
    {
      var els := slides[i].pageElements;
      for j := 0 to |els|
        invariant requests == DeckVideoIds(slides[..i]) + VideoIds(els[..j])
      {
        assert els[..j + 1][..j] == els[..j];
        if els[j].video {
          requests := requests + [els[j].objectId];
        }
      }
      assert els[..|els|] == els;
      assert slides[..i + 1][..i] == slides[..i];
    }
    assert slides[..|slides|] == slides;
    send := requests != [];
  }

  /** The page elements left once the objects with the given ids are deleted. */
  function Prune(els: seq<PageElement>, ids: seq<string>): seq<PageElement>
    decreases |els|
  {
    if |els| == 0 then []
    else Prune(els[..|els| - 1], ids) + (if els[|els| - 1].objectId in ids then [] else [els[|els| - 1]])
  }

  function PruneDeck(slides: seq<Slide>, ids: seq<string>): seq<Slide>
    decreases |slides|
  {
    if |slides| == 0 then []
    else PruneDeck(slides[..|slides| - 1], ids) + [slides[|slides| - 1].(pageElements := Prune(slides[|slides| - 1].pageElements, ids))]
  }

  lemma {:induction false} PruneRemovesVideos(els: seq<PageElement>, ids: seq<string>)
    requires forall id :: id in VideoIds(els) ==> id in ids
    ensures VideoIds(Prune(els, ids)) == []
    decreases |els|
  {
    if |els| > 0 {
      var init := els[..|els| - 1];
      assert forall id :: id in VideoIds(init) ==> id in VideoIds(els);
      PruneRemovesVideos(init, ids);
      var p := Prune(init, ids);
      var e := els[|els| - 1];
      if e.video {
        assert e.objectId in VideoIds(els);
        assert Prune(els, ids) == p;
      } else if e.objectId !in ids {
        var q := p + [e];
        assert Prune(els, ids) == q;
        assert q[..|q| - 1] == p;
        assert VideoIds(q) == VideoIds(p) + [];
      } else {
        assert Prune(els, ids) == p;
      }
    }
  }

  /** Once the requested deletions are applied, deleting again sends nothing. */
  lemma {:induction false} DeleteTwiceSendsNothing(slides: seq<Slide>, ids: seq<string>)
    requires forall id :: id in DeckVideoIds(slides) ==> id in ids
    ensures DeckVideoIds(PruneDeck(slides, ids)) == []
    decreases |slides|
  {
    if |slides| > 0 {
      var init := slides[..|slides| - 1];
      var last := slides[|slides| - 1];
      assert forall id :: id in DeckVideoIds(init) ==> id in DeckVideoIds(slides);
      assert forall id :: id in VideoIds(last.pageElements) ==> id in DeckVideoIds(slides);
      DeleteTwiceSendsNothing(init, ids);
      PruneRemovesVideos(last.pageElements, ids);
      var pruned := PruneDeck(slides, ids);
      assert pruned[..|pruned| - 1] == PruneDeck(init, ids);
    }
  }
}
