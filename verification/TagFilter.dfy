/** Loading presets by tags: the filter language, what its operators mean, and the tag buttons. */
module TagFilter {
  import opened TagLists
  import opened Text

  datatype Entry = Entry(key: string, presetPath: string, tags: seq<string>)

  // ----- Matching -----

  /** tags.Contains(tag, StringComparer.OrdinalIgnoreCase) */
  predicate HasTag(tags: seq<string>, tag: string) {
    exists i :: 0 <= i < |tags| && EqualsIgnoreCase(tags[i], tag)
  }

  /** A leading exclamation mark negates; what follows it is not trimmed again. */
  predicate MatchesToken(token: string, tags: seq<string>) {
    if StartsWith(token, "!") then !HasTag(tags, token[1..]) else HasTag(tags, token)
  }

  predicate MatchesAll(tokens: seq<string>, tags: seq<string>) {
    forall token :: token in tokens ==> MatchesToken(token, tags)
  }

  predicate MatchesFilter(filter: string, tags: seq<string>) {
    if '&' in filter then MatchesAll(Tokens(filter, '&'), tags) else MatchesToken(filter, tags)
  }

  function Filters(text: string): seq<string> {
    Tokens(Trim(text), ',')
  }

  predicate Matches(text: string, tags: seq<string>) {
    exists filter :: filter in Filters(text) && MatchesFilter(filter, tags)
  }

  /** The entries that match, in the order of the dictionary. */
  function Filtered(entries: seq<Entry>, text: string): seq<Entry> {
    if entries == [] then []
    else
      Filtered(entries[..|entries| - 1], text) +
      (if Matches(text, entries[|entries| - 1].tags) then [entries[|entries| - 1]] else [])
  }

  /** The result is the list of all matching entries: at says where each of them stands. */
  lemma {:induction false} FilteredInOrder(entries: seq<Entry>, text: string) returns (at: seq<nat>)
    ensures |at| == |Filtered(entries, text)|
    ensures forall i :: 0 <= i < |at| ==> at[i] < |entries| && entries[at[i]] == Filtered(entries, text)[i]
    ensures forall i, j :: 0 <= i < j < |at| ==> at[i] < at[j]
    ensures forall k: nat :: k in at <==> k < |entries| && Matches(text, entries[k].tags)
  {
    hide Matches;
    if entries == [] {
      at := [];
    } else {
      var n := |entries| - 1;
      var before := FilteredInOrder(entries[..n], text);
      at := before + (if Matches(text, entries[n].tags) then [n] else []);
      assert n !in before;
      forall k: nat ensures k in at <==> k < |entries| && Matches(text, entries[k].tags) {
        assert k < n ==> entries[..n][k] == entries[k];
        assert k in at <==> k in before || (k == n && Matches(text, entries[n].tags));
      }
    }
  }

  // ----- Upper and lower case -----

  predicate SameIgnoringCase(a: seq<string>, b: seq<string>) {
    |a| == |b| && forall i :: 0 <= i < |a| ==> Lower(a[i]) == Lower(b[i])
  }

  lemma HasTagIgnoresCase(a: seq<string>, b: seq<string>, x: string, y: string)
    requires SameIgnoringCase(a, b) && Lower(x) == Lower(y)
    ensures HasTag(a, x) <==> HasTag(b, y)
    ensures (exists i :: 0 <= i < |a| && Lower(a[i]) == Lower(x)) <==> HasTag(a, x)
  {
    assert forall i :: 0 <= i < |a| ==> (EqualsIgnoreCase(a[i], x) <==> Lower(a[i]) == Lower(x));
    if HasTag(a, x) {
      var i :| 0 <= i < |a| && EqualsIgnoreCase(a[i], x);
      assert EqualsIgnoreCase(b[i], y);
    }
    if HasTag(b, y) {
      var i :| 0 <= i < |b| && EqualsIgnoreCase(b[i], y);
      assert EqualsIgnoreCase(a[i], x);
    }
    if i :| 0 <= i < |a| && Lower(a[i]) == Lower(x) { assert EqualsIgnoreCase(a[i], x); }
  }

  /** The case of a preset's tags makes no difference to any filter. */
  lemma MatchesIgnoresCase(text: string, a: seq<string>, b: seq<string>)
    requires SameIgnoringCase(a, b)
    ensures Matches(text, a) <==> Matches(text, b)
  {
    hide HasTag, Tokens, Filters;
    forall token ensures MatchesToken(token, a) <==> MatchesToken(token, b) {
      HasTagIgnoresCase(a, b, token, token);
      if StartsWith(token, "!") { HasTagIgnoresCase(a, b, token[1..], token[1..]); }
    }
    forall f ensures MatchesFilter(f, a) <==> MatchesFilter(f, b) {}
  }

  // ----- Comma: union -----

  /** Only the parts that are not blank decide, unless a preset carries an empty tag. */
  lemma MatchesByParts(text: string, tags: seq<string>)
    requires "" !in tags
    ensures Matches(text, tags) <==> exists p :: p in Parts(text, ',') && p != "" && MatchesFilter(p, tags)
  {
    hide Parts, Tokens;
    PartsOfTrimmed(text, ',');
    TokensAreParts(Trim(text), ',');
    BlankFilter(tags);
    if Matches(text, tags) {
      var f :| f in Filters(text) && MatchesFilter(f, tags);
      assert f in Parts(text, ',') && f != "";
    }
    if exists p :: p in Parts(text, ',') && p != "" && MatchesFilter(p, tags) {
      var p :| p in Parts(text, ',') && p != "" && MatchesFilter(p, tags);
      assert p in Filters(text);
    }
  }

  /** A blank filter looks for an empty tag. */
  lemma BlankFilter(tags: seq<string>)
    ensures MatchesFilter("", tags) <==> "" in tags
  {
    if "" in tags {
      var i :| 0 <= i < |tags| && tags[i] == "";
      assert EqualsIgnoreCase(tags[i], "");
    }
    if HasTag(tags, "") {
      var i :| 0 <= i < |tags| && EqualsIgnoreCase(tags[i], "");
      assert |Lower(tags[i])| == |Lower("")|;
      assert tags[i] == "";
    }
  }

  lemma OrIsUnion(f: string, g: string, tags: seq<string>)
    requires "" !in tags
    ensures Matches(f + "," + g, tags) <==> Matches(f, tags) || Matches(g, tags)
  {
    hide Matches, MatchesFilter, Parts;
    MatchesByParts(f + "," + g, tags);
    MatchesByParts(f, tags);
    MatchesByParts(g, tags);
    PartsConcat(f, ',', g);
    var all := Parts(f, ',') + Parts(g, ',');
    assert forall p :: p in all <==> p in Parts(f, ',') || p in Parts(g, ',');
  }

  /** With an empty tag it would not be: two commas around a space ask for it. */
  lemma EmptyTagBreaksUnion(tags: seq<string>)
    requires "" in tags
    ensures Matches("," + "," + " ,", tags) && !Matches(",", tags) && !Matches(" ,", tags)
  {
    hide MatchesFilter, Split, Trim, DropEmpty, TrimAll;
    var s := "," + "," + " ,";
    assert Filters(",") == [] by { SplitComma(); TrimOfTrimmed(","); TwoEmpty(); }
    assert Filters(" ,") == [] by { SplitComma(); TrimsToComma(); TwoEmpty(); }
    assert "" in Filters(s) by { SplitCommas(); TrimOfTrimmed(s); BlankLeft(); }
    BlankFilter(tags);
  }

  lemma TrimsToComma()
    ensures Trim(" ,") == ","
  {
    TrimUnique(" ", ",", "");
    assert " " + "," + "" == " ,";
  }

  lemma SplitComma()
    ensures Split(",", ',') == ["", ""]
  {
    hide Split;
    SplitNone("", ',');
    SplitFirst("", ',', "");
    assert "" + [','] + "" == ",";
  }

  lemma SplitCommas()
    ensures Split("," + "," + " ,", ',') == [""] + ([""] + ([" "] + [""]))
  {
    hide Split;
    SplitNone("", ',');
    SplitFirst(" ", ',', "");
    SplitFirst("", ',', " ,");
    SplitFirst("", ',', ", ,");
    assert " " + [','] + "" == " ," && "" + [','] + " ," == ", ," && "" + [','] + ", ," == "," + "," + " ,";
  }

  lemma TwoEmpty()
    ensures TrimAll(DropEmpty(["", ""])) == []
  {
    assert DropEmpty([""]) == [];
    assert ["", ""][1..] == [""];
  }

  lemma BlankLeft()
    ensures "" in TrimAll(DropEmpty([""] + ([""] + ([" "] + [""]))))
  {
    var last := [" "] + [""];
    assert last[1..] == [""] && DropEmpty([""]) == [] && DropEmpty(last) == [" "];
    assert ([""] + last)[1..] == last && ([""] + ([""] + last))[1..] == [""] + last;
    TrimUnique(" ", "", "");
    assert " " + "" + "" == " ";
    assert TrimAll([" "])[0] == "";
  }

  /** A comma forms the union exactly for presets without an empty tag. */
  lemma UnionExactly(tags: seq<string>)
    ensures (forall f, g :: Matches(f + "," + g, tags) <==> Matches(f, tags) || Matches(g, tags)) <==> "" !in tags
  {
    hide Matches;
    if "" in tags {
      EmptyTagBreaksUnion(tags);
      var f, g := ",", " ,";
      assert !(Matches(f + "," + g, tags) <==> Matches(f, tags) || Matches(g, tags));
    } else {
      forall f, g ensures Matches(f + "," + g, tags) <==> Matches(f, tags) || Matches(g, tags) {
        OrIsUnion(f, g, tags);
      }
    }
  }

  // ----- Ampersand: intersection -----

  /** Terms joined by ampersands, none of them blank. */
  predicate Conjunction(text: string) {
    ',' !in text && "" !in Parts(text, '&')
  }

  /** A conjunction is one filter, and asks for all its terms. */
  lemma MatchesConjunction(text: string, tags: seq<string>)
    requires Conjunction(text)
    ensures Matches(text, tags) <==> MatchesAll(Parts(text, '&'), tags)
  {
    var t := Trim(text);
    OneFilter(text);
    hide Tokens, Parts, Filters, MatchesToken;
    PartsOfTrimmed(text, '&');
    TokensAreParts(t, '&');
    if '&' !in t {
      PartsNone(t, '&');
      var a, b := TrimShape(text);
      TrimOfTrimmed(t);
      assert MatchesAll([t], tags) <==> MatchesToken(t, tags);
    }
    assert Matches(text, tags) <==> MatchesFilter(t, tags) by {
      if MatchesFilter(t, tags) { assert t in Filters(text); }
    }
  }

  lemma OneFilter(text: string)
    requires Conjunction(text)
    ensures Filters(text) == [Trim(text)]
  {
    var t := Trim(text);
    TrimCharacters(text, ',');
    var a, b := TrimShape(text);
    TrimOfTrimmed(t);
    PartsOfTrimmed(text, '&');
    assert t != "" by {
      PartsNone("", '&');
      TrimEmpty();
      assert [""][0] == "";
    }
    SplitNone(t, ',');
    assert DropEmpty([t]) == [t] by { assert [t][1..] == []; }
    assert TrimAll([t]) == [t];
  }

  lemma AndIsIntersection(a: string, b: string, tags: seq<string>)
    requires Conjunction(a) && Conjunction(b)
    ensures Matches(a + "&" + b, tags) <==> Matches(a, tags) && Matches(b, tags)
  {
    hide Parts, Matches, MatchesToken;
    var both := Parts(a, '&') + Parts(b, '&');
    PartsConcat(a, '&', b);
    assert forall x :: x in both <==> x in Parts(a, '&') || x in Parts(b, '&');
    MatchesConjunction(a, tags);
    MatchesConjunction(b, tags);
    MatchesConjunction(a + "&" + b, tags);
  }

  // ----- Exclamation mark: complement -----

  /** One word: a trimmed text that is not blank and has no operator inside. */
  predicate Word(text: string) {
    ',' !in text && '&' !in text && Trim(text) != ""
  }

  lemma MatchesWord(text: string, tags: seq<string>)
    requires Word(text)
    ensures Matches(text, tags) <==> MatchesToken(Trim(text), tags)
  {
    PartsNone(text, '&');
    assert Conjunction(text);
    hide Matches, MatchesToken, Parts;
    MatchesConjunction(text, tags);
    assert MatchesAll([Trim(text)], tags) <==> MatchesToken(Trim(text), tags);
  }

  lemma {:induction false} TrimEndBehind(s: string, c: char)
    requires !IsWhite(c)
    ensures TrimEnd([c] + s) == [c] + TrimEnd(s)
  {
    if s != "" && IsWhite(s[|s| - 1]) {
      assert ([c] + s)[..|s|] == [c] + s[..|s| - 1];
      TrimEndBehind(s[..|s| - 1], c);
    } else if s == "" {
      assert [c] + s == [c];
    }
  }

  lemma Negated(a: string, tags: seq<string>)
    requires Word(a)
    ensures Matches("!" + a, tags) <==> !HasTag(tags, TrimEnd(a))
  {
    hide HasTag, Matches;
    TrimEndBehind(a, '!');
    assert TrimStart("!" + a) == "!" + a;
    MatchesWord("!" + a, tags);
    assert ("!" + TrimEnd(a))[1..] == TrimEnd(a) && ("!" + TrimEnd(a))[..1] == "!";
  }

  /** White space is not equal to anything else, upper or lower case. */
  lemma WhiteDiffers(x: string, y: string)
    requires x != "" && !IsWhite(x[0]) && (y == "" || IsWhite(y[0]))
    ensures !HasTag([x], y)
  {
    assert |Lower(x)| > 0 && Lower(x)[0] == LowerChar(x[0]);
    if y != "" { assert Lower(y)[0] == y[0]; }
    assert Lower(x) != Lower(y);
    assert !EqualsIgnoreCase([x][0], y);
  }

  /** An exclamation mark before a word forms the complement for every preset exactly when the word
      neither starts with a space nor is negated itself. */
  lemma NotExactly(a: string)
    requires Word(a)
    ensures (forall tags :: Matches("!" + a, tags) <==> !Matches(a, tags)) <==>
              !IsWhite(a[0]) && !StartsWith(Trim(a), "!")
  {
    var t := Trim(a);
    var l, r := TrimShape(a);
    if StartsWith(t, "!") {
      Negated(a, []);
      MatchesWord(a, []);
      assert !(Matches("!" + a, []) <==> !Matches(a, []));
    } else if IsWhite(a[0]) {
      var b := TrimEndShape(a);
      Negated(a, [t]);
      MatchesWord(a, [t]);
      assert TrimEnd(a) == "" || TrimEnd(a)[0] == a[0];
      WhiteDiffers(t, TrimEnd(a));
      assert EqualsIgnoreCase([t][0], t);
      assert !(Matches("!" + a, [t]) <==> !Matches(a, [t]));
    } else {
      hide Matches, HasTag;
      forall tags ensures Matches("!" + a, tags) <==> !Matches(a, tags) {
        Negated(a, tags);
        MatchesWord(a, tags);
      }
    }
  }

  /** A space behind the exclamation mark: the preset with exactly this tag matches both filters. */
  lemma SpacedNegation()
    ensures Matches(" word", ["word"]) && Matches("!" + " word", ["word"])
  {
    hide Matches, HasTag, MatchesToken, Word, Trim, TrimEnd;
    SpacedIsWord();
    MatchesWord(" word", ["word"]);
    OwnTag("word");
    Negated(" word", ["word"]);
    SpaceStays();
    WhiteDiffers("word", TrimEnd(" word"));
  }

  lemma SpacedIsWord()
    ensures Trim(" word") == "word" && Word(" word")
  {
    TrimUnique(" ", "word", "");
    assert " " + "word" + "" == " word";
  }

  lemma OwnTag(tag: string)
    requires tag != "" && tag[0] != '!'
    ensures MatchesToken(tag, [tag])
  {
    assert EqualsIgnoreCase([tag][0], tag);
    assert tag[..1] == [tag[0]];
  }

  lemma SpaceStays()
    ensures TrimEnd(" word") == "" || TrimEnd(" word")[0] == ' '
  {
    var b := TrimEndShape(" word");
  }

  // ----- Tag buttons -----

  lemma JoinedParts(tokens: seq<string>, c: char)
    requires !IsWhite(c) && forall x :: x in tokens ==> Token(x, c)
    ensures Parts(Join(tokens, Separator(c)), c) == if tokens == [] then [""] else tokens
  {
    if tokens == [] {
      PartsNone("", c);
      TrimEmpty();
    } else {
      PartsJoin(tokens, c);
    }
  }

  lemma MatchesJoined(tokens: seq<string>, tags: seq<string>)
    requires "" !in tags && forall x :: x in tokens ==> Token(x, ',')
    ensures Matches(Join(tokens, Separator(',')), tags) <==>
              exists x :: x in tokens && x != "" && MatchesFilter(x, tags)
  {
    hide Matches, MatchesFilter, Token, Join;
    MatchesByParts(Join(tokens, Separator(',')), tags);
    JoinedParts(tokens, ',');
  }

  /** Adding a tag to the filter adds what the tag alone matches; removing one takes away no more than
      that. Sorting the tokens does not change what they mean. */
  lemma ToggleOr(text: string, tag: string, tags: seq<string>)
    requires "" !in tags && tag != "" && Token(tag, ',')
    ensures tag !in Tokens(text, ',') ==>
              (Matches(Toggle(text, tag, ','), tags) <==> Matches(text, tags) || Matches(tag, tags))
    ensures tag in Tokens(text, ',') ==>
              (Matches(text, tags) <==> Matches(Toggle(text, tag, ','), tags) || Matches(tag, tags))
  {
    hide Matches, MatchesFilter, Token, Parts, Tokens, Toggled;
    var tokens := Tokens(text, ',');
    var toggled := Toggled(tokens, tag);
    TokensAreTokens(text, ',');
    TokensAreParts(text, ',');
    ToggledMembers(tokens, tag);
    MatchesJoined(toggled, tags);
    MatchesByParts(text, tags);
    MatchesByParts(tag, tags);
    assert Parts(tag, ',') == [tag] by { PartsOfOne(tag, ','); }
    forall x ensures x in toggled || x == tag <==> x in tokens || x == tag { ToggledIn(tokens, tag, x); }
    if tag !in tokens { ToggledIn(tokens, tag, tag); }
  }

  lemma PartsOfOne(x: string, c: char)
    requires Token(x, c)
    ensures Parts(x, c) == [x]
  {
    PartsNone(x, c);
    TrimOfTrimmed(x);
  }

  lemma ToggledIn(tokens: seq<string>, tag: string, x: string)
    ensures x in Toggled(tokens, tag) || x == tag <==> x in tokens || x == tag
    ensures tag !in tokens ==> tag in Toggled(tokens, tag)
  {
    hide Toggled;
    ToggledMembers(tokens, tag);
    var m := multiset(Toggled(tokens, tag));
    assert x in Toggled(tokens, tag) <==> x in m;
    assert tag in Toggled(tokens, tag) <==> tag in m;
    assert x in tokens <==> x in multiset(tokens);
  }

  lemma {:induction false} JoinWithout(tokens: seq<string>, sep: string, d: char)
    requires d !in sep && forall x :: x in tokens ==> d !in x
    ensures d !in Join(tokens, sep)
  {
    if tokens != [] {
      assert tokens == [tokens[0]] + tokens[1..] && tokens[0] in tokens;
      JoinWithout(tokens[1..], sep, d);
    }
  }

  lemma {:induction false} PartsWithout(s: string, c: char, d: char, x: string)
    requires d !in s && x in Parts(s, c)
    ensures d !in x
    decreases |s|
  {
    hide Parts, Trim;
    if c in s {
      var a, b := Cut(s, c);
      PartsFirst(a, c, b);
      TrimCharacters(a, d);
      if x != Trim(a) { PartsWithout(b, c, d, x); }
    } else {
      PartsNone(s, c);
      TrimCharacters(s, d);
    }
  }

  /** Terms without operators, joined by ampersands, are a conjunction of exactly these terms. */
  lemma JoinedConjunction(tokens: seq<string>, tags: seq<string>)
    requires tokens != [] && "" !in tokens && forall x :: x in tokens ==> Token(x, '&') && ',' !in x
    ensures Conjunction(Join(tokens, Separator('&')))
    ensures Matches(Join(tokens, Separator('&')), tags) <==> MatchesAll(tokens, tags)
  {
    hide Matches, MatchesAll, Parts, Join;
    JoinedParts(tokens, '&');
    JoinWithout(tokens, Separator('&'), ',');
    MatchesConjunction(Join(tokens, Separator('&')), tags);
  }

  /** With the shift key: adding a tag to a conjunction restricts it by the tag, removing one frees it. */
  lemma ToggleAnd(text: string, tag: string, tags: seq<string>)
    requires Conjunction(text) && tag != "" && Token(tag, '&') && ',' !in tag
    ensures tag !in Tokens(text, '&') ==>
              (Matches(Toggle(text, tag, '&'), tags) <==> Matches(text, tags) && Matches(tag, tags))
    ensures tag in Tokens(text, '&') && Toggled(Tokens(text, '&'), tag) != [] ==>
              (Matches(text, tags) <==> Matches(Toggle(text, tag, '&'), tags) && Matches(tag, tags))
  {
    hide Matches, MatchesToken, Token, Parts, Tokens, Toggled, Join;
    var tokens := Tokens(text, '&');
    var toggled := Toggled(tokens, tag);
    TokensAreTokens(text, '&');
    TokensAreParts(text, '&');
    MatchesConjunction(text, tags);
    PartsOfOne(tag, '&');
    MatchesConjunction(tag, tags);
    ToggledMembers(tokens, tag);
    forall x | x in toggled ensures x != "" && Token(x, '&') && ',' !in x {
      if x != tag { PartsWithout(text, '&', ',', x); }
    }
    forall x ensures x in toggled || x == tag <==> x in tokens || x == tag { ToggledIn(tokens, tag, x); }
    if tag !in tokens { ToggledIn(tokens, tag, tag); }
    if toggled != [] { JoinedConjunction(toggled, tags); }
  }

  /** With the shift key on an empty box the tag is the whole filter. */
  lemma ToggleAndFirst(tag: string, tags: seq<string>)
    requires tag != "" && Token(tag, '&') && ',' !in tag
    ensures Matches(Toggle("", tag, '&'), tags) <==> Matches(tag, tags)
  {
    SplitNone("", '&');
    assert Tokens("", '&') == [];
    assert [] + [tag] == [tag] && [tag][1..] == [];
    assert Sort([tag]) == Insert(tag, Sort([])) == [tag];
    assert Toggled([], tag) == [tag];
    assert Join([tag], Separator('&')) == tag;
  }

  // ----- The shift key on a list -----

  /** A word that is no operator and holds none. */
  predicate PlainWord(w: string) {
    w != "" && w[0] != '!' && Token(w, ',') && '&' !in w
  }

  predicate PlainWords(words: seq<string>) {
    words != [] && forall i :: 0 <= i < |words| ==> PlainWord(words[i])
  }

  lemma PlainFilter(w: string, tags: seq<string>)
    requires PlainWord(w)
    ensures MatchesFilter(w, tags) <==> HasTag(tags, w)
  {
    assert w[..1] == [w[0]];
  }

  lemma JoinTwo(a: string, b: string)
    ensures Join([a, b], Separator('&')) == (a + " & ") + b == a + (" & " + b)
  {
    assert [a, b][1..] == [b];
  }

  lemma PairFilter(a: string, b: string, tags: seq<string>)
    requires PlainWord(a) && PlainWord(b)
    ensures MatchesFilter(a + " & " + b, tags) <==> HasTag(tags, a) && HasTag(tags, b)
  {
    hide HasTag, Tokens;
    PlainFilter(a, tags);
    PlainFilter(b, tags);
    JoinTwo(a, b);
    TokensJoin([a, b], '&');
    assert (a + " & " + b)[|a| + 1] == '&';
  }

  lemma FiltersJoined(filters: seq<string>)
    requires filters != [] && "" !in filters && forall x :: x in filters ==> Token(x, ',')
    ensures Filters(Join(filters, Separator(','))) == filters
  {
    hide Tokens, Parts, Trim;
    var text := Join(filters, Separator(','));
    JoinedParts(filters, ',');
    PartsOfTrimmed(text, ',');
    TokensAreParts(Trim(text), ',');
  }

  /** The joined words begin with the first and end with the last of them. */
  lemma {:induction false} JoinEnds(words: seq<string>)
    requires PlainWords(words)
    ensures var text := Join(words, Separator(',')); text != "" && Trimmed(text) && text[0] == words[0][0]
    ensures '&' !in Join(words, Separator(','))
    ensures |words| > 1 ==> ',' in Join(words, Separator(','))
  {
    if |words| > 1 {
      JoinEnds(words[1..]);
      assert (words[0] + ", ")[|words[0]|] == ',';
    }
  }

  lemma JoinFirst(words: seq<string>, prefix: string)
    requires words != []
    ensures prefix + Join(words, ", ") == Join(words[0 := prefix + words[0]], ", ")
  {
    assert words[0 := prefix + words[0]][1..] == words[1..];
    if |words| > 1 {
      assert prefix + (words[0] + ", " + Join(words[1..], ", ")) == prefix + words[0] + ", " + Join(words[1..], ", ");
    }
  }

  lemma {:induction false} JoinLast(words: seq<string>, suffix: string)
    requires words != []
    ensures var n := |words| - 1;
            Join(words, ", ") + suffix == Join(words[n := words[n] + suffix], ", ")
  {
    if |words| > 1 {
      var n := |words| - 1;
      JoinLast(words[1..], suffix);
      assert words[n := words[n] + suffix][1..] == words[1..][n - 1 := words[1..][n - 1] + suffix];
      assert words[0] + ", " + Join(words[1..], ", ") + suffix
          == words[0] + ", " + (Join(words[1..], ", ") + suffix);
    }
  }

  /** Which word the sort ties the tag to. */
  function Tied(words: seq<string>, tag: string): (k: nat)
    requires words != []
    ensures k < |words|
  {
    if Before(tag, Join(words, Separator(','))) then 0 else |words| - 1
  }

  function TiedFilter(words: seq<string>, tag: string): string
    requires words != []
  {
    var w := words[Tied(words, tag)];
    if Before(tag, Join(words, Separator(','))) then tag + " & " + w else w + " & " + tag
  }

  lemma SortTwo(a: string, b: string)
    ensures Sort([a, b]) == if Before(b, a) then [b, a] else [a, b]
  {
    hide Before;
    assert [a, b][1..] == [b] && [b][1..] == [];
    assert Sort([]) == [] && Sort([b]) == Insert(b, []) == [b];
    assert Insert(a, []) == [a];
  }

  lemma ListIsOneToken(words: seq<string>, tag: string)
    requires PlainWords(words) && PlainWord(tag) && tag !in words
    ensures var text := Join(words, Separator(',')); Tokens(text, '&') == [text] && tag != text
  {
    hide Tokens, Parts, Trim;
    var text := Join(words, Separator(','));
    JoinEnds(words);
    PartsNone(text, '&');
    TrimOfTrimmed(text);
    TokensAreParts(text, '&');
    if |words| == 1 { assert text == words[0]; }
  }

  lemma TogglePair(text: string, tag: string)
    requires Tokens(text, '&') == [text] && tag != text
    ensures Toggle(text, tag, '&') == if Before(tag, text) then (tag + " & ") + text else text + (" & " + tag)
  {
    hide Tokens, Before, Sort;
    SortTwo(text, tag);
    assert [text] + [tag] == [text, tag];
    assert Toggled([text], tag) == if Before(tag, text) then [tag, text] else [text, tag];
    JoinTwo(text, tag);
    JoinTwo(tag, text);
  }

  /** The list is one token to the ampersand, so the tag is tied to the word at one of its ends. */
  lemma ToggledList(words: seq<string>, tag: string)
    requires PlainWords(words) && PlainWord(tag) && tag !in words
    ensures Toggle(Join(words, Separator(',')), tag, '&')
         == Join(words[Tied(words, tag) := TiedFilter(words, tag)], Separator(','))
  {
    hide Tokens, Before, Toggle, Join, PlainWord;
    ListIsOneToken(words, tag);
    TogglePair(Join(words, ", "), tag);
    JoinFirst(words, tag + " & ");
    JoinLast(words, " & " + tag);
    var w := words[|words| - 1];
    assert w + " & " + tag == w + (" & " + tag);
  }

  lemma FilterInList(words: seq<string>, tag: string, x: string)
    requires PlainWords(words) && PlainWord(tag) && x in words[Tied(words, tag) := TiedFilter(words, tag)]
    ensures x != "" && Token(x, ',')
  {
    hide Before, Join;
    assert PlainWord(words[Tied(words, tag)]);
  }

  lemma FilterOfWord(words: seq<string>, tag: string, tags: seq<string>, i: nat)
    requires PlainWords(words) && PlainWord(tag) && i < |words|
    ensures var k := Tied(words, tag);
            MatchesFilter(words[k := TiedFilter(words, tag)][i], tags) <==>
              HasTag(tags, words[i]) && (i == k ==> HasTag(tags, tag))
  {
    hide HasTag, MatchesFilter, Before, PlainWord, Join;
    var k := Tied(words, tag);
    if i == k {
      PairFilter(words[i], tag, tags);
      PairFilter(tag, words[i], tags);
    } else {
      PlainFilter(words[i], tags);
    }
  }

  /** With the shift key on a list of words: only the first or the last of them, as the sort decides, is
      restricted by the tag. */
  lemma ToggleAndList(words: seq<string>, tag: string, tags: seq<string>)
    requires PlainWords(words) && PlainWord(tag) && tag !in words
    ensures Matches(Toggle(Join(words, Separator(',')), tag, '&'), tags) <==>
              exists i :: 0 <= i < |words| && HasTag(tags, words[i]) && (i == Tied(words, tag) ==> HasTag(tags, tag))
  {
    hide HasTag, Tokens, Before, Join, Tied, TiedFilter, PlainWord, Filters, MatchesFilter;
    var k := Tied(words, tag);
    var filters := words[k := TiedFilter(words, tag)];
    ToggledList(words, tag);
    forall x | x in filters ensures x != "" && Token(x, ',') { FilterInList(words, tag, x); }
    FiltersJoined(filters);
    forall i | 0 <= i < |words|
      ensures MatchesFilter(filters[i], tags) <==>
                HasTag(tags, words[i]) && (i == k ==> HasTag(tags, tag))
    {
      FilterOfWord(words, tag, tags, i);
    }
    assert (exists f :: f in filters && MatchesFilter(f, tags)) <==>
             exists i :: 0 <= i < |filters| && MatchesFilter(filters[i], tags);
  }

  lemma WordsMatch(words: seq<string>, tags: seq<string>)
    requires PlainWords(words)
    ensures Matches(Join(words, Separator(',')), tags) <==>
              exists i :: 0 <= i < |words| && HasTag(tags, words[i])
  {
    hide HasTag, MatchesFilter, Filters, Join;
    FiltersJoined(words);
    forall i | 0 <= i < |words| ensures MatchesFilter(words[i], tags) <==> HasTag(tags, words[i]) {
      PlainFilter(words[i], tags);
    }
    assert (exists f :: f in words && MatchesFilter(f, tags)) <==>
             exists i :: 0 <= i < |words| && MatchesFilter(words[i], tags);
  }

  lemma WordMatches(tag: string, tags: seq<string>)
    requires PlainWord(tag)
    ensures Matches(tag, tags) <==> HasTag(tags, tag)
  {
    hide Matches, HasTag;
    WordsMatch([tag], tags);
    assert Join([tag], ", ") == tag && [tag][0] == tag;
  }

  /** A word matches the presets that carry it as a tag, in whatever case. */
  lemma WordIgnoresCase(word: string, tags: seq<string>)
    requires PlainWord(word)
    ensures Matches(word, tags) <==> exists i :: 0 <= i < |tags| && Lower(tags[i]) == Lower(word)
  {
    hide Matches;
    WordMatches(word, tags);
    HasTagIgnoresCase(tags, tags, word, word);
  }

  predicate Other(words: seq<string>, tag: string) {
    forall i :: 0 <= i < |words| ==> !EqualsIgnoreCase(words[i], tag)
  }

  /** With the shift key on a list of words without the tag: every preset the filter had is restricted by the
      tag exactly when the list is a single word. */
  lemma ToggleAndIff(words: seq<string>, tag: string)
    requires PlainWords(words) && PlainWord(tag) && Other(words, tag)
    ensures var text := Join(words, Separator(','));
            (forall tags :: Matches(Toggle(text, tag, '&'), tags) <==> Matches(text, tags) && Matches(tag, tags))
              <==> |words| == 1
  {
    hide Matches, Toggle, Join, PlainWord;
    var text := Join(words, Separator(','));
    assert EqualsIgnoreCase(tag, tag);
    if |words| == 1 {
      forall tags ensures Matches(Toggle(text, tag, '&'), tags) <==> Matches(text, tags) && Matches(tag, tags) {
        ToggleAndList(words, tag, tags);
        WordsMatch(words, tags);
        WordMatches(tag, tags);
      }
    } else {
      var free := if Tied(words, tag) == 0 then 1 else 0;
      var tags := [words[free]];
      ToggleAndList(words, tag, tags);
      WordMatches(tag, tags);
      assert EqualsIgnoreCase(tags[0], words[free]);
      assert !(Matches(Toggle(text, tag, '&'), tags) <==> Matches(text, tags) && Matches(tag, tags));
    }
  }

  /** The tag a on the list of b and z: the preset with the tag z still matches. */
  lemma ToggleAndFreesList()
    ensures Toggle("b, z", "a", '&') == "a & b, z"
    ensures Matches(Toggle("b, z", "a", '&'), ["z"]) && !Matches("a", ["z"])
  {
    hide Matches, Toggle, Trim;
    var words := ["b", "z"];
    assert words[1..] == ["z"] && Join(words, ", ") == "b, z";
    assert Before("a", "b, z");
    assert Tied(words, "a") == 0 && TiedFilter(words, "a") == "a & b";
    assert words[0 := "a & b"][1..] == ["z"] && Join(words[0 := "a & b"], ", ") == "a & b, z";
    ToggledList(words, "a");
    ToggleAndList(words, "a", ["z"]);
    WordMatches("a", ["z"]);
    assert EqualsIgnoreCase(["z"][0], words[1]);
    assert Lower("z")[0] != Lower("a")[0];
  }

  // ----- The dictionary -----

  predicate DistinctKeys(entries: seq<Entry>) {
    forall i, j :: 0 <= i < j < |entries| ==> entries[i].key != entries[j].key
  }

  function Find(entries: seq<Entry>, key: string): Option<Entry> {
    if entries == [] then None
    else if entries[0].key == key then Some(entries[0])
    else Find(entries[1..], key)
  }

  /** A known key keeps its place, a new one goes to the end. */
  function Put(entries: seq<Entry>, entry: Entry): seq<Entry> {
    if entries == [] then [entry]
    else if entries[0].key == entry.key then [entry] + entries[1..]
    else [entries[0]] + Put(entries[1..], entry)
  }

  lemma {:induction false} FindPut(entries: seq<Entry>, entry: Entry, key: string)
    ensures Find(Put(entries, entry), key) == if key == entry.key then Some(entry) else Find(entries, key)
  {
    if entries != [] && entries[0].key != entry.key {
      assert Put(entries, entry)[1..] == Put(entries[1..], entry);
      FindPut(entries[1..], entry, key);
    }
  }

  lemma {:induction false} PutFound(entries: seq<Entry>, entry: Entry)
    requires Find(entries, entry.key) == Some(entry)
    ensures Put(entries, entry) == entries
  {
    assert entries == [entries[0]] + entries[1..];
    if entries[0].key != entry.key { PutFound(entries[1..], entry); }
  }

  lemma {:induction false} PutKeys(entries: seq<Entry>, entry: Entry)
    requires DistinctKeys(entries)
    ensures DistinctKeys(Put(entries, entry))
    ensures forall e :: e in Put(entries, entry) ==> e == entry || e in entries
  {
    if entries != [] && entries[0].key != entry.key {
      assert entries == [entries[0]] + entries[1..];
      PutKeys(entries[1..], entry);
      var rest := Put(entries[1..], entry);
      forall j | 0 <= j < |rest| ensures rest[j].key != entries[0].key {
        assert rest[j] in rest;
        if rest[j] != entry {
          var k :| 0 <= k < |entries[1..]| && entries[1..][k] == rest[j];
          assert entries[k + 1] == rest[j];
        }
      }
    } else if entries != [] {
      assert forall e :: e in entries[1..] ==> e in entries;
    }
  }

  /** Saving, showing and saving again: the second save finds nothing to change, and what is stored
      never holds the empty tag that would break the union. */
  lemma SaveShowSave(entries: seq<Entry>, key: string, presetPath: string, text: string)
    ensures var saved := Put(entries, Entry(key, presetPath, SavedTags(text)));
            Find(saved, key).Some? && "" !in Find(saved, key).value.tags &&
            Put(saved, Entry(key, presetPath, SavedTags(Shown(Find(saved, key).value.tags)))) == saved
  {
    hide SavedTags, Shown;
    var entry := Entry(key, presetPath, SavedTags(text));
    FindPut(entries, entry, key);
    SaveTwice(text);
    SavedIsRight(text);
    PutFound(Put(entries, entry), entry);
  }

  // ----- The form -----

  class TagForm {
    var tagEntries: seq<Entry>
    var txtTags: string
    var cboTagsFilter: string

    constructor (tagEntries: seq<Entry>)
      ensures this.tagEntries == tagEntries && txtTags == "" && cboTagsFilter == ""
    {
      this.tagEntries, txtTags, cboTagsFilter := tagEntries, "", "";
    }

    method FilterTagEntries() returns (result: seq<Entry>)
      ensures result == Filtered(tagEntries, cboTagsFilter)
    {
      var filters := Tokens(Trim(cboTagsFilter), ',');
      result := [];
      for i := 0 to |tagEntries|
        invariant result == Filtered(tagEntries[..i], cboTagsFilter)
      {
        assert tagEntries[..i + 1][..i] == tagEntries[..i];
        var tags := tagEntries[i].tags;
        var matches := false;
        var k := 0;
        while k < |filters| && !matches
          invariant k <= |filters|
          invariant matches <==> exists f :: f in filters[..k] && MatchesFilter(f, tags)
        {
          hide MatchesFilter;
          assert filters[..k + 1] == filters[..k] + [filters[k]];
          matches := MatchesFilter(filters[k], tags);
          k := k + 1;
        }
        assert matches <==> Matches(cboTagsFilter, tags) by {
          hide MatchesFilter;
          assert filters[..|filters|] == filters;
          assert forall f :: f in filters[..k] ==> f in filters;
        }
        if matches { result := result + [tagEntries[i]]; }
      }
      assert tagEntries[..|tagEntries|] == tagEntries;
    }

    /** A click on a tag button: Ctrl means the filter box, Shift the filter box with ampersands. */
    method AddOrRemoveTopTag(tag: string, control: bool, shift: bool)
      modifies this`txtTags, this`cboTagsFilter
      ensures txtTags == if tag == "" || control || shift then old(txtTags) else Toggle(old(txtTags), tag, ',')
      ensures cboTagsFilter == if tag == "" || !(control || shift) then old(cboTagsFilter)
                               else Toggle(old(cboTagsFilter), tag, if shift then '&' else ',')
    {
      var filterBox, tokenChar, joinSep := false, ',', ", ";
      if control { filterBox := true; }
      if shift { filterBox, tokenChar, joinSep := true, '&', " & "; }
      if |tag| > 0 {
        var tokens := Tokens(if filterBox then cboTagsFilter else txtTags, tokenChar);
        if tag in tokens { tokens := RemoveFirst(tokens, tag); } else { tokens := tokens + [tag]; }
        tokens := Sort(tokens);
        var joined := Join(tokens, joinSep);
        if filterBox { cboTagsFilter := joined; } else { txtTags := joined; }
      }
    }

    /** Stores the tags in the box for a preset. */
    method SaveTags(key: string, presetPath: string)
      requires DistinctKeys(tagEntries)
      modifies this`tagEntries
      ensures DistinctKeys(tagEntries)
      ensures tagEntries == if key == "" || presetPath == "" then old(tagEntries)
                            else Put(old(tagEntries), Entry(Lower(key), presetPath, SavedTags(txtTags)))
      ensures key != "" && presetPath != "" ==>
                forall other :: Find(tagEntries, Lower(other)) ==
                                if Lower(other) == Lower(key)
                                then Some(Entry(Lower(other), presetPath, SavedTags(txtTags)))
                                else Find(old(tagEntries), Lower(other))
    {
      if |key| > 0 && |presetPath| > 0 {
        var tags := [];
        if Trim(txtTags) != "" { tags := Sort(Unique(Tokens(txtTags, ','))); }
        var entry := Entry(Lower(key), presetPath, tags);
        PutKeys(tagEntries, entry);
        forall other
          ensures Find(Put(tagEntries, entry), Lower(other)) ==
                  if Lower(other) == Lower(key) then Some(entry) else Find(tagEntries, Lower(other))
        {
          FindPut(tagEntries, entry, Lower(other));
        }
        tagEntries := Put(tagEntries, entry);
      }
    }

    /** Shows the tags stored for a preset. */
    method UpdateTagsDisplay(key: string)
      modifies this`txtTags
      ensures key != "" ==> txtTags == match Find(tagEntries, Lower(key))
                                       case Some(e) => Shown(e.tags)
                                       case None => ""
      ensures key == "" ==> txtTags == old(txtTags)
    {
      if |key| > 0 {
        match Find(tagEntries, Lower(key))
        case Some(e) => txtTags := Shown(e.tags);
        case None => txtTags := "";
      }
    }
  }
}
