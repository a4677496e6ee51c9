/** The RTF text builder of the info window (Remote/Helper/RtfBuilder.cs). */
module RtfBuilder {
  import opened Numerals
  import opened Text

  /** A C# char: one UTF-16 code unit. */
  type Unit = n: int | 0 <= n < 0x1_0000

  const BACKSLASH: Unit := 92
  const OPEN: Unit := 123
  const CLOSE: Unit := 125
  const CR: Unit := 13
  const NEWLINE: Unit := 10
  const BULLET: seq<Unit> := [0x2022, 32]

  // ----- Escaping -----

  /** What one character is written as. */
  function EscapeOne(u: Unit): string {
    if u == BACKSLASH then "\\\\"
    else if u == OPEN then "\\{"
    else if u == CLOSE then "\\}"
    else if u == CR then ""
    else if u == NEWLINE then "\\line "
    else if u <= 0x7F then [u as char]
    else "\\u" + Digits(u) + "?"
  }

  function EscapeText(text: seq<Unit>): string {
    if text == [] then "" else EscapeText(text[..|text| - 1]) + EscapeOne(text[|text| - 1])
  }

  function Shown(u: Unit): seq<Unit> { if u == CR then [] else [u] }

  /** The part of a text that can be displayed: everything but carriage returns. */
  function Displayed(text: seq<Unit>): seq<Unit> {
    if text == [] then []
    else Displayed(text[..|text| - 1]) + Shown(text[|text| - 1])
  }

  // ----- Reading -----

  predicate IsLetter(c: char) { 'a' <= c <= 'z' || 'A' <= c <= 'Z' }

  /** The letters s begins with. */
  function Letters(s: string): (n: nat)
    ensures n <= |s|
  {
    if s == "" || !IsLetter(s[0]) then 0 else 1 + Letters(s[1..])
  }

  /** The digits s begins with. */
  function DigitRun(s: string): (n: nat)
    ensures n <= |s| && AllDigits(s[..n])
  {
    if s == "" || !IsDigit(s[0]) then 0 else 1 + DigitRun(s[1..])
  }

  /** A control word: its name, its unsigned parameter if it has one, and how long it is. A space that
      ends the word belongs to it. */
  datatype Word = Word(name: string, parameter: Option<nat>, length: nat)

  function ReadWord(s: string): (w: Word)
    ensures w.length <= |s|
    ensures s != "" && IsLetter(s[0]) ==> w.length > 0
  {
    var n := Letters(s);
    var d := DigitRun(s[n..]);
    var space := if n + d < |s| && s[n + d] == ' ' then 1 else 0;
    Word(s[..n], if d > 0 then Some(Value(s[n..][..d])) else None, n + d + space)
  }

  function Prepend(u: Unit, rest: Option<seq<Unit>>): Option<seq<Unit>> {
    match rest
    case None => None
    case Some(t) => Some([u] + t)
  }

  /** A reader for text without groups: escaped characters, \line, and \uN with the one fallback
      character that follows it. Line ends of the file itself mean nothing. */
  function Decode(s: string): Option<seq<Unit>>
    decreases |s|
  {
    if s == "" then Some([])
    else if s[0] == '{' || s[0] == '}' then None
    else if s[0] == '\r' || s[0] == '\n' then Decode(s[1..])
    else if s[0] != '\\' then if s[0] as int < 0x80 then Prepend(s[0] as int, Decode(s[1..])) else None
    else if |s| == 1 then None
    else if s[1] == '\\' || s[1] == '{' || s[1] == '}' then Prepend(s[1] as int, Decode(s[2..]))
    else
      var w := ReadWord(s[1..]);
      var rest := s[1 + w.length..];
      if w.name == "line" && w.parameter == None then Prepend(NEWLINE, Decode(rest))
      else if w.name == "u" && w.parameter != None && rest != "" then
        Prepend(w.parameter.value % 0x1_0000, Decode(rest[1..]))
      else None
  }

  /** How many characters it takes from inside d open groups until all of them are closed, or -1.
      A character behind a backslash opens and closes nothing. */
  function Closes(s: string, d: nat): (n: int)
    ensures -1 <= n <= |s|
    decreases |s|
  {
    if d == 0 then 0
    else if s == "" then -1
    else if s[0] == '\\' then if |s| == 1 then -1 else After(2, Closes(s[2..], d))
    else if s[0] == '{' then After(1, Closes(s[1..], d + 1))
    else if s[0] == '}' then After(1, Closes(s[1..], d - 1))
    else After(1, Closes(s[1..], d))
  }

  function After(k: nat, n: int): int { if n < 0 then -1 else k + n }

  /** One group: it opens with the first character and closes with the last one, not before. */
  predicate OneGroup(s: string) {
    s != "" && s[0] == '{' && Closes(s[1..], 1) == |s| - 1
  }

  // ----- Reading what was escaped -----

  lemma LettersOf(name: string, rest: string)
    requires forall i :: 0 <= i < |name| ==> IsLetter(name[i])
    requires rest != "" && !IsLetter(rest[0])
    ensures Letters(name + rest) == |name|
  {
    if name == "" {
      assert name + rest == rest;
    } else {
      assert (name + rest)[1..] == name[1..] + rest;
      LettersOf(name[1..], rest);
    }
  }

  lemma DigitsOf(digits: string, rest: string)
    requires AllDigits(digits) && rest != "" && !IsDigit(rest[0])
    ensures DigitRun(digits + rest) == |digits|
  {
    if digits == "" {
      assert digits + rest == rest;
    } else {
      assert (digits + rest)[1..] == digits[1..] + rest;
      DigitsOf(digits[1..], rest);
    }
  }

  lemma LineWord(rest: string)
    ensures ReadWord("line " + rest) == Word("line", None, 5)
  {
    hide Letters, DigitRun;
    var s := "line " + rest;
    assert s == "line" + (" " + rest);
    LettersOf("line", " " + rest);
    assert s[..4] == "line" && s[4..] == "" + (" " + rest);
    DigitsOf("", " " + rest);
  }

  lemma UnicodeWord(u: Unit, rest: string)
    ensures ReadWord("u" + Digits(u) + "?" + rest) == Word("u", Some(u), 1 + |Digits(u)|)
  {
    hide Letters, DigitRun, Digits, Value;
    var d := Digits(u);
    var s := "u" + d + "?" + rest;
    assert s == "u" + (d + "?" + rest);
    assert (d + "?" + rest)[0] == d[0];
    LettersOf("u", d + "?" + rest);
    assert s[1..] == d + ("?" + rest);
    DigitsOf(d, "?" + rest);
    assert s[1..][..|d|] == d && s[1 + |d|] == '?' && s[..1] == "u";
    ValueOfDigits(u);
  }

  lemma DecodeLine(rest: string)
    ensures Decode("\\line " + rest) == Prepend(NEWLINE, Decode(rest))
  {
    hide ReadWord;
    var s := "\\line " + rest;
    assert s[1..] == "line " + rest && s[6..] == rest;
    LineWord(rest);
  }

  lemma DecodeUnicodeWord(s: string, n: nat, length: nat, rest: string)
    requires |s| > 1 + length && s[0] == '\\' && s[1] == 'u' && s[1 + length..] == "?" + rest
    requires ReadWord(s[1..]) == Word("u", Some(n), length)
    ensures Decode(s) == Prepend(n % 0x1_0000, Decode(rest))
  {
    hide ReadWord;
    assert ("?" + rest)[1..] == rest;
  }

  lemma DecodeUnicode(u: Unit, rest: string)
    ensures Decode("\\u" + Digits(u) + "?" + rest) == Prepend(u, Decode(rest))
  {
    hide Decode, ReadWord, Digits;
    var d := Digits(u);
    var s := "\\u" + d + "?" + rest;
    assert s[1..] == "u" + d + "?" + rest;
    UnicodeWord(u, rest);
    assert s[2 + |d|..] == "?" + rest;
    DecodeUnicodeWord(s, u, 1 + |d|, rest);
  }

  lemma DecodePair(c: char, rest: string)
    requires c in {'\\', '{', '}'}
    ensures Decode(['\\', c] + rest) == Prepend(c as int, Decode(rest))
  {
    assert (['\\', c] + rest)[2..] == rest;
  }

  lemma DecodePlain(c: char, rest: string)
    requires c as int < 0x80 && c !in {'\\', '{', '}', '\r', '\n'}
    ensures Decode([c] + rest) == Prepend(c as int, Decode(rest))
  {
    assert ([c] + rest)[1..] == rest;
  }

  /** One escaped character is read back, whatever follows it. */
  lemma DecodeOne(u: Unit, rest: string)
    ensures Decode(EscapeOne(u) + rest) == if u == CR then Decode(rest) else Prepend(u, Decode(rest))
  {
    hide Decode, Digits;
    if u == CR {
      assert "" + rest == rest;
    } else if u == NEWLINE {
      DecodeLine(rest);
    } else if u in {BACKSLASH, OPEN, CLOSE} {
      assert EscapeOne(u) == ['\\', u as char];
      DecodePair(u as char, rest);
    } else if u <= 0x7F {
      DecodePlain(u as char, rest);
    } else {
      DecodeUnicode(u, rest);
    }
  }

  function Concat(text: seq<Unit>, rest: Option<seq<Unit>>): Option<seq<Unit>> {
    match rest
    case None => None
    case Some(t) => Some(text + t)
  }

  /** Escaped text is read back without its carriage returns, whatever follows it. */
  lemma {:induction false} DecodeThen(text: seq<Unit>, rest: string)
    ensures Decode(EscapeText(text) + rest) == Concat(Displayed(text), Decode(rest))
  {
    hide EscapeOne, Decode;
    if text == [] {
      assert EscapeText(text) + rest == rest;
      assert Decode(rest).Some? ==> [] + Decode(rest).value == Decode(rest).value;
    } else {
      var init, last := text[..|text| - 1], text[|text| - 1];
      assert EscapeText(text) + rest == EscapeText(init) + (EscapeOne(last) + rest);
      DecodeThen(init, EscapeOne(last) + rest);
      DecodeOne(last, rest);
      if Decode(rest).Some? {
        assert Displayed(init) + ([last] + Decode(rest).value) == Displayed(init) + [last] + Decode(rest).value;
        assert Displayed(init) + [] == Displayed(init);
      }
    }
  }

  lemma DecodeEscaped(text: seq<Unit>)
    ensures Decode(EscapeText(text)) == Some(Displayed(text))
  {
    DecodeThen(text, "");
    assert EscapeText(text) + "" == EscapeText(text) && Displayed(text) + [] == Displayed(text);
  }

  lemma {:induction false} EscapeAppend(a: seq<Unit>, b: seq<Unit>)
    ensures EscapeText(a + b) == EscapeText(a) + EscapeText(b)
  {
    hide EscapeOne;
    if b == [] {
      assert a + b == a;
    } else {
      assert (a + b)[..|a + b| - 1] == a + b[..|b| - 1];
      EscapeAppend(a, b[..|b| - 1]);
    }
  }

  lemma EscapeEmpty()
    ensures EscapeText([]) == ""
  {
  }

  lemma EscapeNext(text: seq<Unit>, i: nat)
    requires i < |text|
    ensures EscapeText(text[..i + 1]) == EscapeText(text[..i]) + EscapeOne(text[i])
  {
    assert text[..i + 1][..i] == text[..i];
  }

  function Lines(count: int): (r: seq<Unit>)
    ensures |r| == if count < 0 then 0 else count
    ensures forall i :: 0 <= i < |r| ==> r[i] == NEWLINE
  {
    if count <= 0 then [] else Lines(count - 1) + [NEWLINE]
  }

  lemma {:induction false} NothingLost(text: seq<Unit>)
    requires CR !in text
    ensures Displayed(text) == text
  {
    if text != [] {
      NothingLost(text[..|text| - 1]);
      assert text == text[..|text| - 1] + [text[|text| - 1]];
    }
  }

  // ----- Groups -----

  /** Text with neither braces nor a backslash at its end leaves the open groups as they are. */
  lemma {:induction false} PlainCloses(p: string, rest: string, d: nat)
    requires '{' !in p && '}' !in p && (p != "" ==> p[|p| - 1] != '\\') && d > 0
    ensures Closes(p + rest, d) == After(|p|, Closes(rest, d))
    decreases |p|
  {
    if p == "" {
      assert p + rest == rest;
    } else if p[0] == '\\' {
      assert (p + rest)[2..] == p[2..] + rest;
      PlainCloses(p[2..], rest, d);
    } else {
      assert p[0] in p;
      assert (p + rest)[1..] == p[1..] + rest;
      PlainCloses(p[1..], rest, d);
    }
  }

  lemma EscapeOneCloses(u: Unit, rest: string, d: nat)
    requires d > 0
    ensures Closes(EscapeOne(u) + rest, d) == After(|EscapeOne(u)|, Closes(rest, d))
  {
    hide Closes, Digits;
    var e := EscapeOne(u);
    if u in {BACKSLASH, OPEN, CLOSE} {
      assert e + rest == ['\\', u as char] + rest && (e + rest)[2..] == rest;
      EscapedPair(e + rest, d);
    } else {
      if u > 0x7F { assert forall i :: 0 <= i < |Digits(u)| ==> IsDigit(Digits(u)[i]); }
      PlainCloses(e, rest, d);
    }
  }

  lemma EscapedPair(s: string, d: nat)
    requires |s| >= 2 && s[0] == '\\' && d > 0
    ensures Closes(s, d) == After(2, Closes(s[2..], d))
  {
  }

  /** Escaped text leaves the open groups as they are. */
  lemma {:induction false} EscapeCloses(text: seq<Unit>, rest: string, d: nat)
    requires d > 0
    ensures Closes(EscapeText(text) + rest, d) == After(|EscapeText(text)|, Closes(rest, d))
  {
    hide EscapeOne, Closes;
    if text == [] {
      assert EscapeText(text) + rest == rest;
    } else {
      var init, last := text[..|text| - 1], text[|text| - 1];
      assert EscapeText(text) + rest == EscapeText(init) + (EscapeOne(last) + rest);
      EscapeCloses(init, EscapeOne(last) + rest, d);
      EscapeOneCloses(last, rest, d);
    }
  }

  // ----- Documents -----

  const RTF := "\\rtf1\\ansi\\deff0"
  const FONT := "\\f0 Segoe UI;"
  const FONT_TABLE := "{\\fonttbl{" + FONT + "}}"
  const LINK_COLOR := ";\\red255\\green215\\blue0;"
  const COLOR_TABLE := "{\\colortbl " + LINK_COLOR + "}"
  const STYLE := "\\f0\\fs20 "
  const FOOTER := "}"

  function Header(darkMode: bool): string {
    "{" + RTF + FONT_TABLE + (if darkMode then COLOR_TABLE else "") + STYLE
  }

  function Document(darkMode: bool, text: seq<Unit>): string {
    Header(darkMode) + EscapeText(text) + FOOTER
  }

  lemma OpenCloses(rest: string, d: nat)
    requires d > 0
    ensures Closes("{" + rest, d) == After(1, Closes(rest, d + 1))
  {
    assert ("{" + rest)[1..] == rest;
  }

  lemma CloseCloses(rest: string, d: nat)
    requires d > 0
    ensures Closes("}" + rest, d) == After(1, Closes(rest, d - 1))
  {
    assert ("}" + rest)[1..] == rest;
  }

  /** A group of plain text inside open groups. */
  lemma GroupCloses(p: string, rest: string, d: nat)
    requires '{' !in p && '}' !in p && p != "" && p[|p| - 1] != '\\' && d > 0
    ensures Closes("{" + p + "}" + rest, d) == After(|p| + 2, Closes(rest, d))
  {
    hide Closes;
    assert "{" + p + "}" + rest == "{" + (p + ("}" + rest));
    OpenCloses(p + ("}" + rest), d);
    PlainCloses(p, "}" + rest, d + 1);
    CloseCloses(rest, d + 1);
  }

  lemma FontTableCloses(rest: string, d: nat)
    requires d > 0
    ensures Closes(FONT_TABLE + rest, d) == After(|FONT_TABLE|, Closes(rest, d))
  {
    hide Closes;
    var inner := "{" + FONT + "}" + ("}" + rest);
    assert FONT_TABLE + rest == "{" + ("\\fonttbl" + inner);
    OpenCloses("\\fonttbl" + inner, d);
    PlainCloses("\\fonttbl", inner, d + 1);
    GroupCloses(FONT, "}" + rest, d + 1);
    CloseCloses(rest, d + 1);
  }

  lemma ColorTableCloses(rest: string, d: nat)
    requires d > 0
    ensures Closes(COLOR_TABLE + rest, d) == After(|COLOR_TABLE|, Closes(rest, d))
  {
    hide Closes;
    assert COLOR_TABLE + rest == "{" + ("\\colortbl " + LINK_COLOR) + "}" + rest;
    GroupCloses("\\colortbl " + LINK_COLOR, rest, d);
  }

  lemma RtfCloses(rest: string, d: nat)
    requires d > 0
    ensures Closes(RTF + rest, d) == After(|RTF|, Closes(rest, d))
  {
    hide Closes;
    PlainCloses(RTF, rest, d);
  }

  lemma StyleCloses(rest: string, d: nat)
    requires d > 0
    ensures Closes(STYLE + rest, d) == After(|STYLE|, Closes(rest, d))
  {
    hide Closes;
    PlainCloses(STYLE, rest, d);
  }

  lemma Assemble(rtf: string, fonts: string, colors: string, style: string, body: string)
    requires Closes(rtf + (fonts + (colors + (style + (body + "}")))), 1) == |rtf + fonts + colors + style + body| + 1
    ensures OneGroup("{" + rtf + fonts + colors + style + body + "}")
  {
    hide Closes;
    var s := "{" + rtf + fonts + colors + style + body + "}";
    var d := body + "}";
    var c := style + d;
    var b := colors + c;
    var a := fonts + b;
    Reassociate("{" + rtf + fonts + colors + style, body, "}");
    Reassociate("{" + rtf + fonts + colors, style, d);
    Reassociate("{" + rtf + fonts, colors, c);
    Reassociate("{" + rtf, fonts, b);
    Reassociate("{", rtf, a);
    assert s[1..] == rtf + a;
  }

  /** The document is one group that closes with its last character and not before. */
  lemma DocumentIsOneGroup(darkMode: bool, text: seq<Unit>)
    ensures OneGroup(Document(darkMode, text))
  {
    hide Closes, EscapeText;
    var body, colors := EscapeText(text), if darkMode then COLOR_TABLE else "";
    var styled := STYLE + (body + FOOTER);
    RtfCloses(FONT_TABLE + (colors + styled), 1);
    FontTableCloses(colors + styled, 1);
    if darkMode { ColorTableCloses(styled, 1); } else { assert colors + styled == styled; }
    StyleCloses(body + FOOTER, 1);
    EscapeCloses(text, FOOTER, 1);
    LastCloses();
    Assemble(RTF, FONT_TABLE, colors, STYLE, body);
  }

  lemma LastCloses()
    ensures Closes(FOOTER, 1) == 1
  {
    assert FOOTER[1..] == "";
  }

  // ----- The builder -----

  class Builder {
    const darkMode: bool
    var body: string
    /** What the calls so far added. */
    ghost var text: seq<Unit>

    ghost predicate Valid() reads this { body == EscapeText(text) }

    constructor Create(darkMode: bool := false)
      ensures Valid() && this.darkMode == darkMode && text == []
    {
      this.darkMode, body, text := darkMode, "", [];
    }

    method AppendText(added: seq<Unit>)
      requires Valid()
      modifies this
      ensures Valid() && text == old(text) + added
    {
      var escaped := Escape(added);
      EscapeAppend(text, added);
      body := body + escaped;
      text := text + added;
    }

    /** The address is left to the window that shows the text. */
    method AppendLink(caption: seq<Unit>, url: seq<Unit>)
      requires Valid()
      modifies this
      ensures Valid() && text == old(text) + BULLET + caption
    {
      AppendText(BULLET);
      AppendText(caption);
    }

    method AppendLine(count: int := 1)
      requires Valid()
      modifies this
      ensures Valid() && text == old(text) + Lines(count)
    {
      hide EscapeText;
      var i := 0;
      EscapeEmpty();
      while i < count
        invariant 0 <= i && (i <= count || i == 0)
        invariant Valid() && text == old(text) + Lines(i)
      {
        EscapeAppend(text, [NEWLINE]);
        EscapeNext([NEWLINE], 0);
        assert [NEWLINE][..1] == [NEWLINE];
        body := body + "\\line ";
        text := text + [NEWLINE];
        i := i + 1;
      }
    }

    method AppendParagraphBreak()
      requires Valid()
      modifies this
      ensures Valid() && text == old(text) + [NEWLINE, NEWLINE]
    {
      AppendLine(2);
      assert Lines(2) == [NEWLINE, NEWLINE];
    }

    /** Whatever was appended: one group, and between header and footer the text reads back. */
    method Build() returns (r: string)
      requires Valid()
      ensures OneGroup(r)
      ensures var inner := EscapeText(text);
              r == Header(darkMode) + inner + FOOTER && Decode(inner) == Some(Displayed(text))
    {
      r := Header(darkMode) + body + FOOTER;
      DocumentIsOneGroup(darkMode, text);
      DecodeEscaped(text);
    }

    static method Escape(text: seq<Unit>) returns (sb: string)
      ensures sb == EscapeText(text)
      ensures Decode(sb) == Some(Displayed(text))
    {
      hide Displayed, Decode, EscapeText, Digits;
      EscapeEmpty();
      sb := "";
      for i := 0 to |text|
        invariant sb == EscapeText(text[..i])
      {
        EscapeNext(text, i);
        var ch := text[i];
        if ch == BACKSLASH { sb := sb + "\\\\"; }
        else if ch == OPEN { sb := sb + "\\{"; }
        else if ch == CLOSE { sb := sb + "\\}"; }
        else if ch == CR { }
        else if ch == NEWLINE { sb := sb + "\\line "; }
        else if ch <= 0x7F { sb := sb + [ch as char]; }
        else { sb := sb + ("\\u" + Digits(ch) + "?"); }
      }
      assert text[..|text|] == text;
      DecodeEscaped(text);
    }
  }
}
