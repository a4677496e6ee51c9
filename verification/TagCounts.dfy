/** Counting the stored tags and choosing those on the six tag buttons. */
module TagCounts {
  import opened TagFilter
  import opened TagLists
  import opened Text

  datatype TagCount = TagCount(tag: string, count: nat)

  /** Every stored tag, preset after preset. */
  function AllTags(entries: seq<Entry>): seq<string> {
    if entries == [] then [] else AllTags(entries[..|entries| - 1]) + entries[|entries| - 1].tags
  }

  /** More often used, or as often and earlier in the alphabet. */
  predicate Outranks(a: TagCount, b: TagCount) {
    a.count > b.count || (a.count == b.count && Before(a.tag, b.tag))
  }

  predicate Descending(s: seq<TagCount>) {
    forall i, j :: 0 <= i < j < |s| ==> Outranks(s[i], s[j])
  }

  /** The ranking of some tags: each of them once with the number of its uses, best first. */
  predicate Ranking(s: seq<TagCount>, all: seq<string>) {
    && Descending(s)
    && (forall x :: x in s ==> x.tag in all && x.count == multiset(all)[x.tag])
    && (forall tag :: tag in all ==> TagCount(tag, multiset(all)[tag]) in s)
  }

  lemma OutranksTotal(a: TagCount, b: TagCount)
    ensures a == b || Outranks(a, b) || Outranks(b, a)
    ensures !(Outranks(a, b) && Outranks(b, a))
  {
    BeforeTotal(a.tag, b.tag);
  }

  lemma TagsDiffer(a: TagCount, b: TagCount)
    requires Outranks(a, b) && (a.tag == b.tag ==> a.count == b.count)
    ensures a.tag != b.tag
  {
    BeforeTotal(a.tag, b.tag);
  }

  lemma OutranksTransitive(a: TagCount, b: TagCount, c: TagCount)
    requires Outranks(a, b) && Outranks(b, c)
    ensures Outranks(a, c)
  {
    if a.count == c.count { BeforeTransitive(a.tag, b.tag, c.tag); }
  }

  lemma DescendingCons(x: TagCount, s: seq<TagCount>)
    ensures Descending([x] + s) <==> Descending(s) && forall y :: y in s ==> Outranks(x, y)
  {
    hide Outranks;
    var all := [x] + s;
    if Descending(s) && forall y :: y in s ==> Outranks(x, y) {
      forall i, j | 0 <= i < j < |all| ensures Outranks(all[i], all[j]) {
        assert all[j] == s[j - 1] && s[j - 1] in s;
        if i > 0 { assert all[i] == s[i - 1] && Outranks(s[i - 1], s[j - 1]); }
      }
    }
    if Descending(all) {
      forall i, j | 0 <= i < j < |s| ensures Outranks(s[i], s[j]) {
        assert s[i] == all[i + 1] && s[j] == all[j + 1] && Outranks(all[i + 1], all[j + 1]);
      }
      forall y | y in s ensures Outranks(x, y) {
        var i :| 0 <= i < |s| && s[i] == y;
        assert all[i + 1] == y && Outranks(all[0], all[i + 1]);
      }
    }
  }

  // ----- Sorting -----

  function InsertRanked(x: TagCount, s: seq<TagCount>): seq<TagCount> {
    if s == [] || Outranks(x, s[0]) then [x] + s else [s[0]] + InsertRanked(x, s[1..])
  }

  lemma {:induction false} InsertRankedMembers(x: TagCount, s: seq<TagCount>)
    ensures forall y :: y in InsertRanked(x, s) <==> y == x || y in s
  {
    if s != [] && !Outranks(x, s[0]) {
      InsertRankedMembers(x, s[1..]);
      assert s == [s[0]] + s[1..];
    }
  }

  lemma {:induction false} InsertRankedDescending(x: TagCount, s: seq<TagCount>)
    requires Descending(s) && x !in s
    ensures Descending(InsertRanked(x, s))
  {
    hide Descending, Outranks;
    if s != [] {
      assert s == [s[0]] + s[1..];
      DescendingCons(s[0], s[1..]);
      OutranksTotal(x, s[0]);
      assert x != s[0];
      if Outranks(x, s[0]) {
        forall y | y in s ensures Outranks(x, y) { if y != s[0] { OutranksTransitive(x, s[0], y); } }
        DescendingCons(x, s);
      } else {
        InsertRankedDescending(x, s[1..]);
        InsertRankedMembers(x, s[1..]);
        DescendingCons(s[0], InsertRanked(x, s[1..]));
      }
    } else {
      NothingRanked();
      DescendingCons(x, s);
    }
  }

  lemma NothingRanked()
    ensures Descending([])
  {
  }

  // ----- The ranking -----

  /** The order leaves no choice: two descending lists of the same members are the same. */
  lemma {:induction false} DescendingUnique(a: seq<TagCount>, b: seq<TagCount>)
    requires Descending(a) && Descending(b) && forall x :: x in a <==> x in b
    ensures a == b
  {
    hide Descending, Outranks;
    if a == [] || b == [] {
      HasFirst(a);
      HasFirst(b);
    } else {
      var p, q := a[0], b[0];
      assert a == [p] + a[1..] && b == [q] + b[1..];
      DescendingCons(p, a[1..]);
      DescendingCons(q, b[1..]);
      assert p in a && q in b && p in b && q in a;
      OutranksTotal(p, q);
      assert p == q;
      OutranksTotal(p, p);
      assert p !in a[1..] && p !in b[1..];
      forall x ensures x in a[1..] <==> x in b[1..] {
        assert x in a <==> x == p || x in a[1..];
        assert x in b <==> x == p || x in b[1..];
      }
      DescendingUnique(a[1..], b[1..]);
    }
  }

  lemma RankingUnique(a: seq<TagCount>, b: seq<TagCount>, all: seq<string>)
    requires Ranking(a, all) && Ranking(b, all)
    ensures a == b
  {
    hide Descending;
    forall x ensures x in a <==> x in b {
      assert x in a ==> x.tag in all && x == TagCount(x.tag, multiset(all)[x.tag]);
      assert x in b ==> x.tag in all && x == TagCount(x.tag, multiset(all)[x.tag]);
    }
    DescendingUnique(a, b);
  }

  function Sum(s: seq<TagCount>): nat {
    if s == [] then 0 else s[0].count + Sum(s[1..])
  }

  /** The counts of a list without the same tag twice add up to what the list accounts for. */
  lemma {:induction false} SumIs(s: seq<TagCount>, m: multiset<string>)
    requires Descending(s)
    requires forall x :: x in s ==> x.count == m[x.tag]
    requires forall tag :: tag in m ==> TagCount(tag, m[tag]) in s
    ensures Sum(s) == |m|
  {
    hide Outranks;
    if s == [] {
      assert forall tag :: m[tag] == 0;
      assert m == multiset{};
    } else {
      hide Descending;
      var x, rest := s[0], s[1..];
      assert s == [x] + rest && x in s;
      DescendingCons(x, rest);
      var others := m[x.tag := 0];
      forall y | y in rest ensures y.count == others[y.tag] {
        assert y in s;
        TagsDiffer(x, y);
      }
      forall tag | tag in others ensures TagCount(tag, others[tag]) in rest {
        assert tag in m && TagCount(tag, m[tag]) in s;
      }
      SumIs(rest, others);
      assert |others| == |m| - m[x.tag];
    }
  }

  /** No tag is listed twice, and the counts add up to the number of stored tags. */
  lemma RankingTotal(s: seq<TagCount>, all: seq<string>)
    requires Ranking(s, all)
    ensures Sum(s) == |all|
    ensures forall i, j :: 0 <= i < j < |s| ==> s[i].tag != s[j].tag
  {
    assert forall tag :: tag in multiset(all) <==> tag in all;
    SumIs(s, multiset(all));
    forall i, j | 0 <= i < j < |s| ensures s[i].tag != s[j].tag {
      assert s[i] in s && s[j] in s;
      TagsDiffer(s[i], s[j]);
    }
  }

  /** A tag that is on none of the first buttons is outranked by the tags on all of them. */
  lemma TopTags(s: seq<TagCount>, all: seq<string>, buttons: nat, tag: string)
    requires Ranking(s, all) && tag in all
    requires forall i :: 0 <= i < buttons && i < |s| ==> s[i].tag != tag
    ensures |s| > buttons
    ensures forall i :: 0 <= i < buttons ==> Outranks(s[i], TagCount(tag, multiset(all)[tag]))
  {
    hide Outranks;
    var x := TagCount(tag, multiset(all)[tag]);
    var k :| 0 <= k < |s| && s[k] == x;
    assert k >= buttons;
  }

  // ----- Counting -----

  /** The dictionary holds the number of uses of every tag seen. */
  ghost predicate Counted(counts: map<string, nat>, seen: seq<string>) {
    && (forall tag :: tag in counts <==> tag in seen)
    && (forall tag :: tag in counts ==> counts[tag] == multiset(seen)[tag])
  }

  lemma NothingCounted()
    ensures Counted(map[], []) && AllTags([]) == []
  {
  }

  lemma AllTagsNext(entries: seq<Entry>, i: nat)
    requires i < |entries|
    ensures AllTags(entries[..i + 1]) == AllTags(entries[..i]) + entries[i].tags
  {
    assert entries[..i + 1][..i] == entries[..i];
  }

  lemma CountedNext(counts: map<string, nat>, seen: seq<string>, tag: string)
    requires Counted(counts, seen)
    ensures Counted(counts[tag := if tag in counts then counts[tag] + 1 else 1], seen + [tag])
  {
    assert forall t :: multiset(seen + [tag])[t] == multiset(seen)[t] + multiset([tag])[t];
    assert tag !in seen ==> multiset(seen)[tag] == 0;
  }

  // ----- The form -----

  const BUTTONS := 6

  class TagButtons {
    /** What the six buttons hold. */
    const btnTags: array<Option<TagCount>>

    constructor ()
      ensures fresh(btnTags) && btnTags.Length == BUTTONS
    {
      btnTags := new Option<TagCount>[BUTTONS](_ => None);
    }

    method GetTagsListSortedByCount(tagEntries: seq<Entry>) returns (sortedTags: seq<TagCount>)
      ensures Ranking(sortedTags, AllTags(tagEntries))
    {
      hide Counted, AllTags, Ranking;
      var tagCounts: map<string, nat> := map[];
      ghost var seen := [];
      NothingCounted();
      for i := 0 to |tagEntries|
        invariant seen == AllTags(tagEntries[..i])
        invariant Counted(tagCounts, seen)
      {
        var tags := tagEntries[i].tags;
        ghost var before := seen;
        AllTagsNext(tagEntries, i);
        assert before + tags[..0] == before;
        for k := 0 to |tags|
          invariant seen == before + tags[..k]
          invariant Counted(tagCounts, seen)
        {
          CountedNext(tagCounts, seen, tags[k]);
          if tags[k] in tagCounts {
            tagCounts := tagCounts[tags[k] := tagCounts[tags[k]] + 1];
          } else {
            tagCounts := tagCounts[tags[k] := 1];
          }
          seen := seen + [tags[k]];
          assert seen == before + tags[..k + 1];
        }
        assert tags[..|tags|] == tags;
      }
      assert tagEntries[..|tagEntries|] == tagEntries;
      sortedTags := SortByCount(tagCounts, AllTags(tagEntries));
    }

    /** OrderByDescending by count, then by tag. */
    static method SortByCount(tagCounts: map<string, nat>, ghost all: seq<string>) returns (sortedTags: seq<TagCount>)
      requires Counted(tagCounts, all)
      ensures Ranking(sortedTags, all)
    {
      sortedTags := [];
      var rest := tagCounts.Keys;
      while rest != {}
        invariant rest <= tagCounts.Keys && Descending(sortedTags)
        invariant forall x :: x in sortedTags <==> x.tag in tagCounts.Keys - rest && x.count == tagCounts[x.tag]
        decreases rest
      {
        hide Descending;
        var tag :| tag in rest;
        var x := TagCount(tag, tagCounts[tag]);
        InsertRankedDescending(x, sortedTags);
        InsertRankedMembers(x, sortedTags);
        sortedTags := InsertRanked(x, sortedTags);
        rest := rest - {tag};
      }
      forall tag | tag in all ensures TagCount(tag, multiset(all)[tag]) in sortedTags { assert tag in tagCounts; }
    }

    method SetTopTags(tagEntries: seq<Entry>)
      requires btnTags.Length == BUTTONS
      modifies btnTags
      ensures exists s :: Ranking(s, AllTags(tagEntries)) &&
                forall i :: 0 <= i < BUTTONS ==> btnTags[i] == if i < |s| then Some(s[i]) else None
    {
      var sortedTags := GetTagsListSortedByCount(tagEntries);
      hide Ranking;
      btnTags[0] := if |sortedTags| > 0 then Some(sortedTags[0]) else None;
      btnTags[1] := if |sortedTags| > 1 then Some(sortedTags[1]) else None;
      btnTags[2] := if |sortedTags| > 2 then Some(sortedTags[2]) else None;
      btnTags[3] := if |sortedTags| > 3 then Some(sortedTags[3]) else None;
      btnTags[4] := if |sortedTags| > 4 then Some(sortedTags[4]) else None;
      btnTags[5] := if |sortedTags| > 5 then Some(sortedTags[5]) else None;
    }
  }
}
