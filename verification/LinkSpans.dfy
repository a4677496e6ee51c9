/** The links of the info window (Remote/MilkwaveInfoForm.cs): finding them in the text and looking
    them up by position. */
module LinkSpans {
  import opened Text

  datatype LinkSpan = LinkSpan(start: nat, length: nat, url: string)

  datatype Link = Link(caption: string, url: string)

  predicate Blank(s: string) { AllWhite(s) }

  predicate Covers(span: LinkSpan, at: int) {
    span.start <= at < span.start + span.length
  }

  // ----- The spans of one link -----

  /** The greedy search: the first occurrence, then the first one behind it, and so on. */
  function Spans(text: string, caption: string, url: string, from: nat): seq<LinkSpan>
    requires caption != ""
    decreases |text| - from
  {
    var at := IndexOf(text, caption, from);
    if at < 0 then [] else [LinkSpan(at, |caption|, url)] + Spans(text, caption, url, at + |caption|)
  }

  /** In range, on the caption, in order and disjoint. */
  predicate Sound(spans: seq<LinkSpan>, text: string, caption: string, url: string, from: nat) {
    && (forall i :: 0 <= i < |spans| ==>
          spans[i].start >= from && OccursAt(text, caption, spans[i].start) && spans[i].length == |caption| &&
            spans[i].url == url)
    && (forall i, j :: 0 <= i < j < |spans| ==> spans[i].start + spans[i].length <= spans[j].start)
  }

  predicate Covered(spans: seq<LinkSpan>, at: int) {
    exists i :: 0 <= i < |spans| && Covers(spans[i], at)
  }

  /** Every occurrence begins inside one of the spans. */
  ghost predicate Complete(spans: seq<LinkSpan>, text: string, caption: string, from: nat) {
    forall at :: from <= at && OccursAt(text, caption, at) ==> Covered(spans, at)
  }

  lemma CoveredCons(span: LinkSpan, rest: seq<LinkSpan>, at: int)
    ensures Covered([span] + rest, at) <==> Covers(span, at) || Covered(rest, at)
  {
    var all := [span] + rest;
    if Covers(span, at) { assert Covers(all[0], at); }
    if Covered(rest, at) {
      var i :| 0 <= i < |rest| && Covers(rest[i], at);
      assert Covers(all[i + 1], at);
    }
  }

  /** The search in progress: what was found and what lies ahead make up all. */
  ghost predicate Searching(found: seq<LinkSpan>, text: string, caption: string, url: string, from: nat,
    all: seq<LinkSpan>) {
    caption != "" && found + Spans(text, caption, url, from) == all
  }

  lemma SearchStarts(found: seq<LinkSpan>, text: string, caption: string, url: string)
    requires caption != ""
    ensures Searching(found, text, caption, url, 0, found + Spans(text, caption, url, 0))
  {
  }

  lemma SearchOn(found: seq<LinkSpan>, text: string, caption: string, url: string, from: nat, all: seq<LinkSpan>)
    requires Searching(found, text, caption, url, from, all) && from <= |text| && IndexOf(text, caption, from) >= 0
    ensures var at := IndexOf(text, caption, from);
            Searching(found + [LinkSpan(at, |caption|, url)], text, caption, url, at + |caption|, all)
  {
    hide IndexOf;
    var at := IndexOf(text, caption, from);
    Reassociate(found, [LinkSpan(at, |caption|, url)], Spans(text, caption, url, at + |caption|));
  }

  lemma SearchEnds(found: seq<LinkSpan>, text: string, caption: string, url: string, from: nat, all: seq<LinkSpan>)
    requires Searching(found, text, caption, url, from, all) && (from >= |text| || IndexOf(text, caption, from) < 0)
    ensures found == all
  {
    assert found + [] == found;
  }

  lemma SoundCons(first: LinkSpan, rest: seq<LinkSpan>, text: string, caption: string, url: string, from: nat)
    requires first.start >= from && OccursAt(text, caption, first.start) && first.length == |caption| &&
              first.url == url
    requires Sound(rest, text, caption, url, first.start + first.length)
    ensures Sound([first] + rest, text, caption, url, from)
  {
    hide OccursAt;
    var all := [first] + rest;
    assert forall i :: 0 < i < |all| ==> all[i] == rest[i - 1];
  }

  lemma CompleteCons(first: LinkSpan, rest: seq<LinkSpan>, text: string, caption: string, from: nat)
    requires forall k :: from <= k < first.start ==> !OccursAt(text, caption, k)
    requires Complete(rest, text, caption, first.start + first.length)
    ensures Complete([first] + rest, text, caption, from)
  {
    hide OccursAt, Covered;
    forall k | from <= k && OccursAt(text, caption, k) ensures Covered([first] + rest, k) {
      CoveredCons(first, rest, k);
    }
  }

  lemma {:induction false} SpansAreRight(text: string, caption: string, url: string, from: nat)
    requires caption != ""
    ensures Sound(Spans(text, caption, url, from), text, caption, url, from)
    ensures Complete(Spans(text, caption, url, from), text, caption, from)
    decreases |text| - from
  {
    hide IndexOf, Covered;
    var at := IndexOf(text, caption, from);
    if at >= 0 {
      hide Sound, Complete;
      var first, rest := LinkSpan(at, |caption|, url), Spans(text, caption, url, at + |caption|);
      SpansAreRight(text, caption, url, at + |caption|);
      SoundCons(first, rest, text, caption, url, from);
      CompleteCons(first, rest, text, caption, from);
    }
  }

  /** The first of sound and complete spans is the first occurrence. */
  lemma FirstSpan(spans: seq<LinkSpan>, text: string, caption: string, url: string, from: nat, at: nat)
    requires Sound(spans, text, caption, url, from) && Covered(spans, at)
    requires forall k :: from <= k < at ==> !OccursAt(text, caption, k)
    ensures spans != [] && spans[0] == LinkSpan(at, |caption|, url)
    ensures Sound(spans[1..], text, caption, url, at + |caption|)
  {
    hide OccursAt;
    var i :| 0 <= i < |spans| && Covers(spans[i], at);
    assert OccursAt(text, caption, spans[i].start) && spans[i].start == at;
    assert OccursAt(text, caption, spans[0].start);
    assert i == 0;
    forall j | 0 < j < |spans| ensures spans[j].start >= at + |caption| {
      assert spans[0].start + spans[0].length <= spans[j].start;
    }
  }

  lemma CompleteRest(first: LinkSpan, rest: seq<LinkSpan>, text: string, caption: string, from: nat)
    requires Complete([first] + rest, text, caption, from) && from <= first.start + first.length
    ensures Complete(rest, text, caption, first.start + first.length)
  {
    hide OccursAt, Covered;
    forall k | first.start + first.length <= k && OccursAt(text, caption, k) ensures Covered(rest, k) {
      CoveredCons(first, rest, k);
    }
  }

  /** There is no other such list: sound and complete spans are the ones the loop finds. */
  lemma {:induction false} OnlyTheseSpans(spans: seq<LinkSpan>, text: string, caption: string, url: string, from: nat)
    requires caption != ""
    requires Sound(spans, text, caption, url, from) && Complete(spans, text, caption, from)
    ensures spans == Spans(text, caption, url, from)
    decreases |text| - from
  {
    hide IndexOf, Covered;
    var at := IndexOf(text, caption, from);
    if at < 0 {
      HasFirst(spans);
    } else {
      FirstSpan(spans, text, caption, url, from, at);
      hide Sound, Complete;
      var rest := spans[1..];
      assert spans == [spans[0]] + rest;
      CompleteRest(spans[0], rest, text, caption, from);
      OnlyTheseSpans(rest, text, caption, url, at + |caption|);
    }
  }

  // ----- All links -----

  predicate Usable(link: Link) { !Blank(link.caption) && !Blank(link.url) }

  function LinkSpansOf(text: string, link: Link): seq<LinkSpan> {
    if Usable(link) then Spans(text, link.caption, link.url, 0) else []
  }

  /** A link is highlighted exactly when neither caption nor address is blank and the caption occurs. */
  lemma HighlightedIff(text: string, link: Link)
    ensures LinkSpansOf(text, link) != [] <==>
              !AllWhite(link.caption) && !AllWhite(link.url) && exists k :: OccursAt(text, link.caption, k)
  {
    hide OccursAt;
    if !AllWhite(link.caption) && !AllWhite(link.url) {
      var at := IndexOf(text, link.caption, 0);
      forall k ensures OccursAt(text, link.caption, k) ==> k >= 0 { OccursAtNat(text, link.caption, k); }
    }
  }

  lemma OccursAtNat(text: string, caption: string, k: int)
    ensures OccursAt(text, caption, k) ==> k >= 0
  {
  }

  function AllSpans(text: string, links: seq<Link>): seq<LinkSpan> {
    if links == [] then []
    else AllSpans(text, links[..|links| - 1]) + LinkSpansOf(text, links[|links| - 1])
  }

  /** What a click finds: the first span that covers the position. */
  function Lookup(spans: seq<LinkSpan>, at: int): Option<LinkSpan> {
    if spans == [] then None
    else if Covers(spans[0], at) then Some(spans[0])
    else Lookup(spans[1..], at)
  }

  lemma LookupAppend(a: seq<LinkSpan>, b: seq<LinkSpan>, at: int)
    ensures Lookup(a + b, at) == if Lookup(a, at).Some? then Lookup(a, at) else Lookup(b, at)
  {
    if a == [] {
      assert a + b == b;
    } else {
      assert (a + b)[1..] == a[1..] + b;
      LookupAppend(a[1..], b, at);
    }
  }

  lemma {:induction false} LookupCovered(spans: seq<LinkSpan>, at: int)
    ensures Lookup(spans, at).Some? <==> Covered(spans, at)
    ensures Lookup(spans, at).Some? ==> Lookup(spans, at).value in spans && Covers(Lookup(spans, at).value, at)
  {
    if spans != [] {
      assert spans == [spans[0]] + spans[1..];
      CoveredCons(spans[0], spans[1..], at);
      LookupCovered(spans[1..], at);
    }
  }

  /** A position belongs to a link when an occurrence of its caption that was found covers it. */
  predicate Hits(text: string, link: Link, at: int) {
    Covered(LinkSpansOf(text, link), at)
  }

  /** A click opens the first link in the list that was found at that position. */
  lemma {:induction false} FirstLinkWins(text: string, links: seq<Link>, at: int, k: nat)
    requires k < |links| && Hits(text, links[k], at)
    requires forall i :: 0 <= i < k ==> !Hits(text, links[i], at)
    ensures Lookup(AllSpans(text, links), at).Some? && Lookup(AllSpans(text, links), at).value.url == links[k].url
  {
    hide Lookup;
    var init, last := links[..|links| - 1], links[|links| - 1];
    LookupAppend(AllSpans(text, init), LinkSpansOf(text, last), at);
    if k < |init| {
      FirstLinkWins(text, init, at, k);
    } else {
      NoneHit(text, init, at);
      LookupCovered(LinkSpansOf(text, last), at);
      SpansAreRight(text, last.caption, last.url, 0);
    }
  }

  lemma {:induction false} NoneHit(text: string, links: seq<Link>, at: int)
    requires forall i :: 0 <= i < |links| ==> !Hits(text, links[i], at)
    ensures Lookup(AllSpans(text, links), at) == None
  {
    if links != [] {
      var init, last := links[..|links| - 1], links[|links| - 1];
      NoneHit(text, init, at);
      assert !Hits(text, last, at);
      LookupCovered(LinkSpansOf(text, last), at);
      LookupAppend(AllSpans(text, init), LinkSpansOf(text, last), at);
    }
  }

  /** A click on the first character of any occurrence of a usable link's caption opens some link, and
      it opens that link when no earlier one was found there. */
  lemma ClickOpensLink(text: string, links: seq<Link>, at: int, k: nat)
    requires k < |links| && Usable(links[k]) && OccursAt(text, links[k].caption, at)
    ensures Hits(text, links[k], at) && Lookup(AllSpans(text, links), at).Some?
    ensures (forall i :: 0 <= i < k ==> !Hits(text, links[i], at)) ==>
              Lookup(AllSpans(text, links), at).value.url == links[k].url
  {
    SpansAreRight(text, links[k].caption, links[k].url, 0);
    var first := FirstHit(text, links, at, k);
    FirstLinkWins(text, links, at, first);
    if forall i :: 0 <= i < k ==> !Hits(text, links[i], at) { FirstLinkWins(text, links, at, k); }
  }

  lemma FirstHit(text: string, links: seq<Link>, at: int, k: nat) returns (first: nat)
    requires k < |links| && Hits(text, links[k], at)
    ensures first <= k && Hits(text, links[first], at)
    ensures forall i :: 0 <= i < first ==> !Hits(text, links[i], at)
  {
    hide Hits;
    first := 0;
    while !Hits(text, links[first], at)
      invariant first <= k && forall i :: 0 <= i < first ==> !Hits(text, links[i], at)
      decreases k - first
    {
      first := first + 1;
    }
  }

  // ----- The window -----

  class InfoWindow {
    /** The text as displayed. */
    var text: string
    var customLinks: seq<LinkSpan>

    constructor ()
      ensures text == "" && customLinks == []
    {
      text, customLinks := "", [];
    }

    /** links is null for a text whose addresses the text box finds itself. */
    method SetTextContent(displayed: string, links: Option<seq<Link>>)
      modifies this
      ensures text == displayed
      ensures customLinks == if links.None? then [] else AllSpans(displayed, links.value)
    {
      text := displayed;
      customLinks := [];
      if links.Some? {
        for i := 0 to |links.value|
          invariant text == displayed && customLinks == AllSpans(displayed, links.value[..i])
        {
          assert links.value[..i + 1][..i] == links.value[..i];
          HighlightLink(links.value[i]);
        }
        assert links.value[..|links.value|] == links.value;
      }
    }

    method HighlightLink(link: Link)
      modifies this`customLinks
      ensures customLinks == old(customLinks) + LinkSpansOf(text, link)
    {
      if Blank(link.caption) || Blank(link.url) { return; }
      assert link.caption != "";
      ghost var all := customLinks + LinkSpansOf(text, link);
      SearchStarts(customLinks, text, link.caption, link.url);
      hide *;
      var startIndex := 0;
      while startIndex < |text|
        invariant Searching(customLinks, text, link.caption, link.url, startIndex, all)
        decreases |text| - startIndex
      {
        var matchIndex := IndexOf(text, link.caption, startIndex);
        if matchIndex < 0 { break; }
        SearchOn(customLinks, text, link.caption, link.url, startIndex, all);
        customLinks := customLinks + [LinkSpan(matchIndex, |link.caption|, link.url)];
        startIndex := matchIndex + |link.caption|;
      }
      SearchEnds(customLinks, text, link.caption, link.url, startIndex, all);
    }

    /** charIndex is what the text box says lies at the mouse. */
    method TryGetLinkAtPoint(charIndex: int) returns (link: Option<LinkSpan>)
      ensures link == Lookup(customLinks, charIndex)
      ensures link.Some? <==> Covered(customLinks, charIndex)
    {
      LookupCovered(customLinks, charIndex);
      if |customLinks| == 0 || charIndex < 0 { return None; }
      for i := 0 to |customLinks|
        invariant Lookup(customLinks, charIndex) == Lookup(customLinks[i..], charIndex)
      {
        var span := customLinks[i];
        if Covers(span, charIndex) { return Some(span); }
      }
      return None;
    }
  }
}
