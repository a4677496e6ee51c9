/** Lists of tags in a text box: splitting, trimming, sorting, joining, toggling and saving them. */
module TagLists {
  import opened Text

  // ----- Order -----

  /** A total order of strings: by the first character that differs. */
  predicate Before(a: string, b: string) {
    b != "" && (a == "" || a[0] < b[0] || (a[0] == b[0] && Before(a[1..], b[1..])))
  }

  lemma {:induction false} BeforeTotal(a: string, b: string)
    ensures a == b || Before(a, b) || Before(b, a)
    ensures !(Before(a, b) && Before(b, a))
  {
    if a != "" && b != "" && a[0] == b[0] {
      BeforeTotal(a[1..], b[1..]);
      assert a == [a[0]] + a[1..] && b == [b[0]] + b[1..];
    }
  }

  lemma {:induction false} BeforeTransitive(a: string, b: string, c: string)
    requires Before(a, b) && Before(b, c)
    ensures Before(a, c)
  {
    if a != "" && a[0] == b[0] == c[0] { BeforeTransitive(a[1..], b[1..], c[1..]); }
  }

  predicate Sorted(s: seq<string>) {
    forall i, j :: 0 <= i < j < |s| ==> !Before(s[j], s[i])
  }

  predicate StrictlySorted(s: seq<string>) {
    forall i, j :: 0 <= i < j < |s| ==> Before(s[i], s[j])
  }

  function Insert(x: string, s: seq<string>): seq<string> {
    if s == [] || !Before(s[0], x) then [x] + s else [s[0]] + Insert(x, s[1..])
  }

  /** OrderBy(tag => tag) */
  function Sort(s: seq<string>): seq<string> {
    if s == [] then [] else Insert(s[0], Sort(s[1..]))
  }

  lemma {:induction false} InsertMembers(x: string, s: seq<string>)
    ensures multiset(Insert(x, s)) == multiset(s) + multiset{x}
  {
    if s != [] && Before(s[0], x) {
      InsertMembers(x, s[1..]);
      assert s == [s[0]] + s[1..];
    }
  }

  lemma MembersOf(s: seq<string>, t: seq<string>)
    requires multiset(s) == multiset(t)
    ensures forall x :: x in s <==> x in t
  {
    assert forall x :: x in s <==> x in multiset(s);
    assert forall x :: x in t <==> x in multiset(t);
  }

  /** Nothing in a sorted list comes before its first element, and conversely. */
  lemma SortedCons(x: string, s: seq<string>)
    ensures Sorted([x] + s) <==> Sorted(s) && forall y :: y in s ==> !Before(y, x)
  {
    var all := [x] + s;
    assert forall i :: 0 < i < |all| ==> all[i] == s[i - 1];
    if Sorted(s) && forall y :: y in s ==> !Before(y, x) {
      forall i, j | 0 <= i < j < |all| ensures !Before(all[j], all[i]) {
        assert all[j] == s[j - 1] && s[j - 1] in s;
        if i > 0 { assert all[i] == s[i - 1] && !Before(s[j - 1], s[i - 1]); }
      }
    }
    if Sorted(all) {
      forall i, j | 0 <= i < j < |s| ensures !Before(s[j], s[i]) {
        assert s[i] == all[i + 1] && s[j] == all[j + 1] && !Before(all[j + 1], all[i + 1]);
      }
      forall y | y in s ensures !Before(y, x) {
        var i :| 0 <= i < |s| && s[i] == y;
        assert all[i + 1] == y && all[0] == x && !Before(all[i + 1], all[0]);
      }
    }
  }

  lemma {:induction false} InsertSorted(x: string, s: seq<string>)
    requires Sorted(s)
    ensures Sorted(Insert(x, s))
  {
    hide Sorted;
    if s != [] {
      assert s == [s[0]] + s[1..];
      SortedCons(s[0], s[1..]);
      BeforeTotal(s[0], x);
      if Before(s[0], x) {
        InsertSorted(x, s[1..]);
        InsertMembers(x, s[1..]);
        MembersOf(Insert(x, s[1..]), s[1..] + [x]);
        SortedCons(s[0], Insert(x, s[1..]));
      } else {
        forall y | y in s ensures !Before(y, x) {
          if Before(y, x) && y != s[0] { NotBetween(x, s[0], y); }
        }
        SortedCons(x, s);
      }
    } else {
      SortedCons(x, s);
      assert Sorted([]) by { NothingToSort(); }
    }
  }

  lemma NothingToSort()
    ensures Sorted([])
  {
  }

  /** Where the order is total, not-before is transitive too. */
  lemma NotBetween(x: string, low: string, y: string)
    requires !Before(low, x) && !Before(y, low)
    ensures !Before(y, x)
  {
    BeforeTotal(low, x);
    BeforeTotal(y, low);
    if Before(y, x) {
      if low != x && low != y {
        BeforeTransitive(low, y, x);
      }
    }
  }

  lemma {:induction false} SortIsRight(s: seq<string>)
    ensures Sorted(Sort(s)) && multiset(Sort(s)) == multiset(s)
  {
    if s != [] {
      SortIsRight(s[1..]);
      InsertSorted(s[0], Sort(s[1..]));
      InsertMembers(s[0], Sort(s[1..]));
      assert s == [s[0]] + s[1..];
    }
  }

  /** A sorted list is determined by what it contains. */
  lemma {:induction false} SortedUnique(a: seq<string>, b: seq<string>)
    requires Sorted(a) && Sorted(b) && multiset(a) == multiset(b)
    ensures a == b
  {
    hide Sorted, Before;
    assert |a| == |multiset(a)| && |b| == |multiset(b)|;
    if a != [] {
      SameFirst(a, b);
      SortedUnique(a[1..], b[1..]);
      assert a == [a[0]] + a[1..] && b == [b[0]] + b[1..];
    }
  }

  lemma SameFirst(a: seq<string>, b: seq<string>)
    requires Sorted(a) && Sorted(b) && multiset(a) == multiset(b) && a != [] && b != []
    ensures a[0] == b[0] && Sorted(a[1..]) && Sorted(b[1..]) && multiset(a[1..]) == multiset(b[1..])
  {
    hide Sorted, Before;
    assert a == [a[0]] + a[1..] && b == [b[0]] + b[1..];
    SortedCons(a[0], a[1..]);
    SortedCons(b[0], b[1..]);
    MembersOf(a, b);
    assert a[0] in a && b[0] in b;
    BeforeTotal(a[0], b[0]);
    assert multiset(a) == multiset(a[1..]) + multiset{a[0]} && multiset(b) == multiset(b[1..]) + multiset{b[0]};
    Cancel(multiset(a[1..]), multiset(b[1..]), a[0]);
  }

  // ----- Parts -----

  function TrimAll(s: seq<string>): (r: seq<string>)
    ensures |r| == |s|
  {
    if s == [] then [] else [Trim(s[0])] + TrimAll(s[1..])
  }

  function DropEmpty(s: seq<string>): seq<string> {
    if s == [] then []
    else if s[0] == "" then DropEmpty(s[1..])
    else [s[0]] + DropEmpty(s[1..])
  }

  /** The trimmed parts between the separators, blank ones included. */
  function Parts(s: string, c: char): seq<string> {
    TrimAll(Split(s, c))
  }

  /** Split with RemoveEmptyEntries, then Trim: only parts without any character are dropped. */
  function Tokens(s: string, c: char): seq<string> {
    TrimAll(DropEmpty(Split(s, c)))
  }

  lemma Cut(s: string, c: char) returns (a: string, b: string)
    requires c in s
    ensures s == a + [c] + b && c !in a
  {
    var i := 0;
    while s[i] != c
      invariant i < |s| && c in s[i..] && c !in s[..i]
      decreases |s| - i
    {
      assert s[i..] == [s[i]] + s[i + 1..];
      assert s[..i + 1] == s[..i] + [s[i]];
      i := i + 1;
    }
    a, b := s[..i], s[i + 1..];
    assert s == s[..i] + [s[i]] + s[i + 1..];
  }

  lemma PartsNone(s: string, c: char)
    requires c !in s
    ensures Parts(s, c) == [Trim(s)]
  {
    SplitNone(s, c);
    assert TrimAll([s]) == [Trim(s)];
  }

  lemma PartsFirst(a: string, c: char, rest: string)
    requires c !in a
    ensures Parts(a + [c] + rest, c) == [Trim(a)] + Parts(rest, c)
  {
    SplitFirst(a, c, rest);
    assert ([a] + Split(rest, c))[1..] == Split(rest, c);
  }

  /** The parts of two texts with a separator between them are the parts of both. */
  lemma {:induction false} PartsConcat(f: string, c: char, g: string)
    ensures Parts(f + [c] + g, c) == Parts(f, c) + Parts(g, c)
    decreases |f|
  {
    hide Parts;
    if c in f {
      var a, b := Cut(f, c);
      assert f + [c] + g == a + [c] + (b + [c] + g);
      PartsFirst(a, c, b + [c] + g);
      PartsFirst(a, c, b);
      PartsConcat(b, c, g);
    } else {
      PartsFirst(f, c, g);
      PartsNone(f, c);
    }
  }

  lemma PartsLead(w: string, s: string, c: char)
    requires AllWhite(w) && !IsWhite(c)
    ensures Parts(w + s, c) == Parts(s, c)
  {
    hide Parts;
    assert w + s + "" == w + s;
    if c in s {
      var a, b := Cut(s, c);
      assert w + s == (w + a) + [c] + b;
      PartsFirst(w + a, c, b);
      PartsFirst(a, c, b);
      assert w + a + "" == w + a;
      TrimAbsorbs(w, a, "");
    } else {
      PartsNone(w + s, c);
      PartsNone(s, c);
      TrimAbsorbs(w, s, "");
    }
  }

  lemma {:induction false} PartsTrail(s: string, w: string, c: char)
    requires AllWhite(w) && !IsWhite(c)
    ensures Parts(s + w, c) == Parts(s, c)
    decreases |s|
  {
    hide Parts;
    if c in s {
      var a, b := Cut(s, c);
      assert s + w == a + [c] + (b + w);
      PartsFirst(a, c, b + w);
      PartsFirst(a, c, b);
      PartsTrail(b, w, c);
    } else {
      PartsNone(s + w, c);
      PartsNone(s, c);
      assert "" + s + w == s + w;
      TrimAbsorbs("", s, w);
    }
  }

  lemma PartsOfTrimmed(s: string, c: char)
    requires !IsWhite(c)
    ensures Parts(Trim(s), c) == Parts(s, c)
  {
    hide Parts, Trim;
    var a, b := TrimShape(s);
    PartsTrail(a + Trim(s), b, c);
    PartsLead(a, Trim(s), c);
  }

  lemma TrimEmpty()
    ensures Trim("") == ""
  {
  }

  lemma {:induction false} DroppedMembers(s: seq<string>, x: string)
    requires x != ""
    ensures x in TrimAll(DropEmpty(s)) <==> x in TrimAll(s)
  {
    TrimEmpty();
    if s != [] { DroppedMembers(s[1..], x); }
  }

  lemma {:induction false} NothingDropped(s: seq<string>)
    requires "" !in TrimAll(s)
    ensures DropEmpty(s) == s
  {
    TrimEmpty();
    if s != [] {
      assert s == [s[0]] + s[1..];
      assert TrimAll(s)[0] == Trim(s[0]) && TrimAll(s) == [Trim(s[0])] + TrimAll(s[1..]);
      NothingDropped(s[1..]);
    }
  }

  /** Apart from blank ones, the tokens are the parts. */
  lemma TokensAreParts(s: string, c: char)
    ensures forall x :: x != "" ==> (x in Tokens(s, c) <==> x in Parts(s, c))
    ensures "" !in Parts(s, c) ==> Tokens(s, c) == Parts(s, c)
  {
    forall x | x != "" ensures x in Tokens(s, c) <==> x in Parts(s, c) { DroppedMembers(Split(s, c), x); }
    if "" !in Parts(s, c) { NothingDropped(Split(s, c)); }
  }

  /** Every token is trimmed and without separator. */
  predicate Token(x: string, c: char) { Trimmed(x) && c !in x }

  lemma {:induction false} PartsAreTokens(s: string, c: char, x: string)
    requires x in Parts(s, c)
    ensures Token(x, c)
    decreases |s|
  {
    hide Parts, Trim;
    if c in s {
      var a, b := Cut(s, c);
      PartsFirst(a, c, b);
      var l, r := TrimShape(a);
      TrimCharacters(a, c);
      if x != Trim(a) { PartsAreTokens(b, c, x); }
    } else {
      PartsNone(s, c);
      var l, r := TrimShape(s);
      TrimCharacters(s, c);
    }
  }

  lemma {:induction false} TrimAllMembers(s: seq<string>, x: string)
    ensures x in TrimAll(DropEmpty(s)) ==> x in TrimAll(s)
  {
    if s != [] { TrimAllMembers(s[1..], x); }
  }

  lemma TokensAreTokens(s: string, c: char)
    ensures forall x :: x in Tokens(s, c) ==> Token(x, c)
  {
    forall x | x in Tokens(s, c) ensures Token(x, c) {
      TrimAllMembers(Split(s, c), x);
      PartsAreTokens(s, c, x);
    }
  }

  // ----- Joining -----

  /** The separator the boxes join with: the character with white space around it. */
  function Separator(c: char): string {
    if c == ',' then ", " else [' ', c, ' ']
  }

  lemma SeparatorShape(c: char) returns (l: string, r: string)
    ensures Separator(c) == l + [c] + r && AllWhite(l) && AllWhite(r)
  {
    l, r := if c == ',' then "" else " ", " ";
  }

  /** Joined tokens come apart again. */
  lemma {:induction false} PartsJoin(tokens: seq<string>, c: char)
    requires tokens != [] && !IsWhite(c) && forall x :: x in tokens ==> Token(x, c)
    ensures Parts(Join(tokens, Separator(c)), c) == tokens
  {
    hide Parts, Trim;
    assert tokens == [tokens[0]] + tokens[1..] && tokens[0] in tokens;
    TrimOfTrimmed(tokens[0]);
    if |tokens| == 1 {
      PartsNone(tokens[0], c);
    } else {
      var l, r := SeparatorShape(c);
      var rest := Join(tokens[1..], Separator(c));
      assert Join(tokens, Separator(c)) == (tokens[0] + l) + [c] + (r + rest);
      PartsFirst(tokens[0] + l, c, r + rest);
      PartsLead(r, rest, c);
      assert "" + tokens[0] + l == tokens[0] + l;
      TrimAbsorbs("", tokens[0], l);
      assert forall x :: x in tokens[1..] ==> x in tokens;
      PartsJoin(tokens[1..], c);
    }
  }

  lemma TokensJoin(tokens: seq<string>, c: char)
    requires !IsWhite(c) && "" !in tokens && forall x :: x in tokens ==> Token(x, c)
    ensures Tokens(Join(tokens, Separator(c)), c) == tokens
  {
    if tokens == [] {
      SplitNone("", c);
      assert DropEmpty([""]) == [];
    } else {
      hide Parts, Tokens;
      PartsJoin(tokens, c);
      TokensAreParts(Join(tokens, Separator(c)), c);
    }
  }

  // ----- Toggling -----

  /** tokens.Remove(tag): the first one goes. */
  function RemoveFirst(s: seq<string>, x: string): seq<string> {
    if s == [] then [] else if s[0] == x then s[1..] else [s[0]] + RemoveFirst(s[1..], x)
  }

  lemma {:induction false} RemoveFirstMembers(s: seq<string>, x: string)
    requires x in s
    ensures multiset(RemoveFirst(s, x)) + multiset{x} == multiset(s)
  {
    assert s == [s[0]] + s[1..];
    if s[0] != x { RemoveFirstMembers(s[1..], x); }
  }

  function Toggled(tokens: seq<string>, tag: string): seq<string> {
    Sort(if tag in tokens then RemoveFirst(tokens, tag) else tokens + [tag])
  }

  /** The text box after a click on a tag button. */
  function Toggle(text: string, tag: string, c: char): string {
    Join(Toggled(Tokens(text, c), tag), Separator(c))
  }

  lemma ToggledMembers(tokens: seq<string>, tag: string)
    ensures multiset(Toggled(tokens, tag)) ==
            if tag in tokens then multiset(tokens) - multiset{tag} else multiset(tokens) + multiset{tag}
    ensures Sorted(Toggled(tokens, tag))
    ensures forall x :: x in Toggled(tokens, tag) ==> x in tokens || x == tag
    ensures tag in tokens ==> multiset(Toggled(tokens, tag)) + multiset{tag} == multiset(tokens)
  {
    if tag in tokens {
      RemoveFirstMembers(tokens, tag);
      SortIsRight(RemoveFirst(tokens, tag));
    } else {
      SortIsRight(tokens + [tag]);
    }
    var m := multiset(Toggled(tokens, tag));
    forall x | x in Toggled(tokens, tag) ensures x in tokens || x == tag {
      assert x in m;
      assert x in tokens <==> x in multiset(tokens);
    }
  }

  /** Clicking the same tag twice gives back a sorted list without duplicates. */
  lemma ToggleTwice(tokens: seq<string>, tag: string, c: char)
    requires !IsWhite(c) && StrictlySorted(tokens) && tag != "" && Token(tag, c)
    requires "" !in tokens && forall x :: x in tokens ==> Token(x, c)
    ensures var text := Join(tokens, Separator(c));
            Toggle(Toggle(text, tag, c), tag, c) == text
  {
    hide Tokens, Toggled, Join, Before;
    var once := Toggled(tokens, tag);
    var twice := Toggled(once, tag);
    TokensJoin(tokens, c);
    ToggledMembers(tokens, tag);
    TokensJoin(once, c);
    ToggledMembers(once, tag);
    StrictIsSorted(tokens);
    NoDuplicates(tokens, tag);
    assert tag in once <==> tag in multiset(once);
    assert tag in tokens <==> tag in multiset(tokens);
    assert multiset(twice) == multiset(tokens);
    SortedUnique(twice, tokens);
  }

  lemma StrictIsSorted(s: seq<string>)
    requires StrictlySorted(s)
    ensures Sorted(s)
  {
    forall i, j | 0 <= i < j < |s| ensures !Before(s[j], s[i]) { BeforeTotal(s[i], s[j]); }
  }

  lemma {:induction false} NoDuplicates(s: seq<string>, x: string)
    requires StrictlySorted(s)
    ensures multiset(s)[x] <= 1
  {
    hide Before;
    if s != [] {
      assert s == [s[0]] + s[1..];
      NoDuplicates(s[1..], x);
      if x in s[1..] {
        var i :| 0 <= i < |s[1..]| && s[1..][i] == x;
        assert s[i + 1] == x;
        BeforeTotal(s[0], x);
      } else {
        assert multiset(s[1..])[x] == 0;
      }
    }
  }

  // ----- Saving -----

  /** The tokens in lower case, without blank ones, each once. */
  function Unique(tokens: seq<string>): seq<string> {
    if tokens == [] then []
    else
      var init, tag := Unique(tokens[..|tokens| - 1]), Lower(tokens[|tokens| - 1]);
      if tag == "" || tag in init then init else init + [tag]
  }

  /** The tags SaveTags stores for a text. */
  function SavedTags(text: string): seq<string> {
    if Trim(text) == "" then [] else Sort(Unique(Tokens(text, ',')))
  }

  /** How stored tags are shown. */
  function Shown(tags: seq<string>): string { Join(tags, Separator(',')) }

  /** A stored tag: not blank, trimmed, in lower case, without commas. */
  predicate Storable(tag: string) {
    tag != "" && Token(tag, ',') && Lower(tag) == tag
  }

  lemma LowerToken(x: string, c: char)
    requires Token(x, c) && !('a' <= c <= 'z') && !('A' <= c <= 'Z')
    ensures Token(Lower(x), c) && Lower(Lower(x)) == Lower(x)
  {
    LowerIdempotent(x);
    TrimOfTrimmed(x);
    LowerPreservesTrim(x);
    var a, b := TrimShape(Lower(x));
  }

  lemma {:induction false} UniqueIsRight(tokens: seq<string>)
    requires forall x :: x in tokens ==> Token(x, ',')
    ensures forall x :: x in Unique(tokens) ==> Storable(x)
    ensures forall x :: x in Unique(tokens) <==> x != "" && exists i :: 0 <= i < |tokens| && Lower(tokens[i]) == x
  {
    hide Lower, Token;
    if tokens != [] {
      var init, last := tokens[..|tokens| - 1], tokens[|tokens| - 1];
      var seen, tag := Unique(init), Lower(last);
      UniqueIsRight(init);
      LowerToken(last, ',');
      forall x ensures x in Unique(tokens) <==> x != "" && exists i :: 0 <= i < |tokens| && Lower(tokens[i]) == x {
        if x in seen {
          var i :| 0 <= i < |init| && Lower(init[i]) == x;
          assert tokens[i] == init[i];
        } else if exists i :: 0 <= i < |tokens| && Lower(tokens[i]) == x {
          var i :| 0 <= i < |tokens| && Lower(tokens[i]) == x;
          if i < |init| { assert init[i] == tokens[i]; }
        }
      }
    }
  }

  lemma {:induction false} UniqueOnce(tokens: seq<string>)
    ensures forall x :: multiset(Unique(tokens))[x] <= 1
  {
    hide Lower;
    if tokens != [] {
      var init, tag := tokens[..|tokens| - 1], Lower(tokens[|tokens| - 1]);
      UniqueOnce(init);
      assert tag in Unique(init) <==> tag in multiset(Unique(init));
    }
  }

  lemma {:induction false} UniqueStays(tokens: seq<string>)
    requires forall x :: x in tokens ==> x != "" && Lower(x) == x
    requires forall x :: multiset(tokens)[x] <= 1
    ensures Unique(tokens) == tokens
  {
    hide Lower;
    if tokens != [] {
      var init, last := tokens[..|tokens| - 1], tokens[|tokens| - 1];
      assert tokens == init + [last];
      forall x ensures multiset(init)[x] <= 1 {
        assert multiset(tokens)[x] == multiset(init)[x] + multiset([last])[x];
      }
      assert forall x :: x in init ==> x in tokens;
      assert last in tokens && multiset(tokens)[last] == multiset(init)[last] + 1;
      UniqueStays(init);
      assert multiset(init)[last] == 0;
    }
  }

  lemma Twice(s: seq<string>, i: nat, j: nat)
    requires i < j < |s| && s[i] == s[j]
    ensures multiset(s)[s[i]] >= 2
  {
    assert s == s[..j] + [s[j]] + s[j + 1..];
    assert s[..j][i] == s[i] && s[i] in multiset(s[..j]);
  }

  lemma SortedStrict(s: seq<string>)
    requires Sorted(s) && forall x :: multiset(s)[x] <= 1
    ensures StrictlySorted(s)
  {
    hide Before;
    forall i, j | 0 <= i < j < |s| ensures Before(s[i], s[j]) {
      BeforeTotal(s[i], s[j]);
      assert !Before(s[j], s[i]);
      if s[i] == s[j] { Twice(s, i, j); }
    }
  }

  lemma StoredMembers(text: string, x: string)
    ensures x in SavedTags(text) <==>
              x != "" && exists i :: 0 <= i < |Parts(text, ',')| && Lower(Parts(text, ',')[i]) == x
  {
    hide Tokens, Parts, Unique, Lower, Sort;
    var tokens, parts := Tokens(text, ','), Parts(text, ',');
    TokensAreTokens(text, ',');
    TokensAreParts(text, ',');
    UniqueIsRight(tokens);
    SortIsRight(Unique(tokens));
    MembersOf(Sort(Unique(tokens)), Unique(tokens));
    LowerLength();
    if exists i :: 0 <= i < |tokens| && Lower(tokens[i]) == x {
      var i :| 0 <= i < |tokens| && Lower(tokens[i]) == x;
      if x != "" {
        assert tokens[i] in tokens && tokens[i] in parts;
      }
    }
    if exists i :: 0 <= i < |parts| && Lower(parts[i]) == x {
      var i :| 0 <= i < |parts| && Lower(parts[i]) == x;
      if x != "" {
        assert parts[i] in parts && parts[i] in tokens;
      }
    }
    if Trim(text) == "" {
      PartsOfTrimmed(text, ',');
      PartsNone("", ',');
      TrimEmpty();
    }
  }

  lemma LowerLength()
    ensures Lower("") == "" && forall x :: Lower(x) != "" ==> x != ""
  {
  }

  /** What is stored: every tag storable, in order, none twice, and exactly the lower-cased parts. */
  lemma SavedIsRight(text: string)
    ensures forall x :: x in SavedTags(text) ==> Storable(x)
    ensures StrictlySorted(SavedTags(text)) && forall x :: multiset(SavedTags(text))[x] <= 1
    ensures forall x :: x in SavedTags(text) <==>
              x != "" && exists i :: 0 <= i < |Parts(text, ',')| && Lower(Parts(text, ',')[i]) == x
  {
    hide Tokens, Parts, Unique, Lower, Sort, Storable;
    var tokens := Tokens(text, ',');
    TokensAreTokens(text, ',');
    UniqueIsRight(tokens);
    UniqueOnce(tokens);
    SortIsRight(Unique(tokens));
    MembersOf(Sort(Unique(tokens)), Unique(tokens));
    SortedStrict(Sort(Unique(tokens)));
    forall x ensures x in SavedTags(text) <==>
      x != "" && exists i :: 0 <= i < |Parts(text, ',')| && Lower(Parts(text, ',')[i]) == x {
      StoredMembers(text, x);
    }
  }

  /** Saving what is shown for a preset changes nothing. */
  lemma SaveTwice(text: string)
    ensures SavedTags(Shown(SavedTags(text))) == SavedTags(text)
  {
    var tags := SavedTags(text);
    SavedIsRight(text);
    hide SavedTags, Tokens, Unique, Lower, Join, Sort;
    assert "" !in tags;
    TokensJoin(tags, ',');
    UniqueStays(tags);
    StrictIsSorted(tags);
    SortIsRight(tags);
    SortedUnique(Sort(tags), tags);
    SavedFrom(Shown(tags));
  }

  lemma SavedFrom(text: string)
    ensures SavedTags(text) == Sort(Unique(Tokens(text, ',')))
  {
    if Trim(text) == "" {
      var tokens := Tokens(text, ',');
      NoneInBlank(text);
      hide Tokens, Lower, Token, Storable;
      UniqueIsRight(tokens);
      LowerLength();
      HasFirst(Unique(tokens));
      assert Unique(tokens) == [];
    }
  }

  lemma NoneInBlank(text: string)
    requires Trim(text) == ""
    ensures forall x :: x in Tokens(text, ',') ==> x == "" && Token(x, ',')
    ensures forall i :: 0 <= i < |Tokens(text, ',')| ==> Tokens(text, ',')[i] in Tokens(text, ',')
  {
    hide Tokens, Parts;
    PartsOfTrimmed(text, ',');
    PartsNone("", ',');
    TrimEmpty();
    TokensAreParts(text, ',');
  }
}
