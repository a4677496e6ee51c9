/** The editor and the reader of sprites.ini, and the in-memory image map kept beside the file. */
module SpriteDefinitions {
  import opened Text

  // ----- Comments and values -----

  function CutAt(s: string, i: int): string
    requires -1 <= i <= |s|
  {
    if i >= 0 then s[..i] else s
  }

  /** Removes a trailing comment: first from "//", then from ';'. */
  function StripInlineComment(value: string): string {
    var trimmed := Trim(value);
    var code := CutAt(trimmed, IndexOf(trimmed, "//", 0));
    Trim(CutAt(code, IndexOf(code, ";", 0)))
  }

  /** The earlier of "//" and ';' at or after start, or -1. */
  function FindInlineCommentIndex(line: string, start: nat): (r: int)
    ensures r == -1 || (start <= r && (OccursAt(line, "//", r) || OccursAt(line, ";", r)))
    ensures forall i :: start <= i && (r == -1 || i < r) ==> !OccursAt(line, "//", i) && !OccursAt(line, ";", i)
  {
    var slash := IndexOf(line, "//", start);
    var semicolon := IndexOf(line, ";", start);
    if slash >= 0 && semicolon >= 0 then (if slash <= semicolon then slash else semicolon)
    else if slash >= 0 then slash
    else semicolon
  }

  function Backslashed(s: string): (r: string)
    ensures |r| == |s|
    ensures forall i :: 0 <= i < |s| ==> r[i] == if s[i] == '/' then '\\' else s[i]
  {
    seq(|s|, i requires 0 <= i < |s| => if s[i] == '/' then '\\' else s[i])
  }

  /** A value the reader can produce: non-empty, trimmed, with no ';' and no forward slash. */
  predicate Clean(v: string) {
    v != "" && Trimmed(v) && ';' !in v && '/' !in v
  }

  predicate CommentOrNothing(suffix: string) {
    suffix == "" || StartsWith(suffix, "//") || StartsWith(suffix, ";")
  }

  lemma CutBefore(s: string, c: char)
    ensures c !in CutAt(s, IndexOf(s, [c], 0))
  {
    var cut := CutAt(s, IndexOf(s, [c], 0));
    forall i | 0 <= i < |cut| ensures cut[i] != c {
      OccursAtChar(s, c, i);
      assert cut[i] == s[i];
    }
  }

  /** Everything the reader stores is Clean or empty. */
  lemma ReadValueClean(x: string)
    ensures var v := Backslashed(StripInlineComment(x)); v == "" || Clean(v)
  {
    var t := Trim(x);
    var code := CutAt(t, IndexOf(t, "//", 0));
    CutBefore(code, ';');
    var cut := CutAt(code, IndexOf(code, ";", 0));
    TrimCharacters(cut, ';');
    var a, b := TrimShape(cut);
    BackslashedClean(Trim(cut));
  }

  lemma BackslashedClean(s: string)
    requires Trimmed(s) && ';' !in s
    ensures Backslashed(s) == "" || Clean(Backslashed(s))
  {
  }

  lemma CommentKeptByTrimEnd(v: string, suffix: string) returns (s': string)
    requires Clean(v) && CommentOrNothing(suffix)
    ensures CommentOrNothing(s') && Trim(v + suffix) == v + s'
  {
    if suffix == "" {
      s' := "";
      assert v + suffix == v;
      TrimOfTrimmed(v);
    } else if StartsWith(suffix, ";") {
      s' := TrimAfterMark(v, ";", suffix[1..]);
      assert suffix == ";" + suffix[1..];
    } else {
      s' := TrimAfterMark(v, "//", suffix[2..]);
      assert suffix == "//" + suffix[2..];
    }
  }

  lemma TrimAfterMark(v: string, mark: string, tail: string) returns (s': string)
    requires Clean(v) && (mark == "//" || mark == ";")
    ensures StartsWith(s', mark) && Trim(v + (mark + tail)) == v + s'
  {
    hide *;
    var kept := TrimEnd(tail);
    var b := TrimEndShape(tail);
    s' := mark + kept;
    assert StartsWith(s', mark) by { MarkStarts(mark, kept); }
    assert v + (mark + tail) == "" + (v + s') + b;
    assert v + s' == (v + mark) + kept;
    CleanStart(v, mark);
    CoreTrimmed(v + mark, kept);
    TrimUnique("", v + s', b);
  }

  lemma MarkStarts(mark: string, rest: string)
    ensures StartsWith(mark + rest, mark)
  {
  }

  lemma CleanStart(v: string, mark: string)
    requires Clean(v) && (mark == "//" || mark == ";")
    ensures Trimmed(v + mark) && v + mark != ""
  {
    assert (v + mark)[|v + mark| - 1] == mark[|mark| - 1];
  }

  lemma CoreTrimmed(s: string, t: string)
    requires s != "" && Trimmed(s) && (t != "" ==> !IsWhite(t[|t| - 1]))
    ensures Trimmed(s + t)
  {
  }

  lemma NoMark(v: string, suffix: string)
    requires Clean(v)
    ensures forall i {:trigger OccursAt(v + suffix, "//", i)} {:trigger OccursAt(v + suffix, ";", i)} ::
              i < |v| ==> !OccursAt(v + suffix, "//", i) && !OccursAt(v + suffix, ";", i)
  {
    forall i | 0 <= i < |v| ensures !OccursAt(v + suffix, "//", i) && !OccursAt(v + suffix, ";", i) {
      OccursAtChars(v + suffix, "//", i);
      OccursAtChars(v + suffix, ";", i);
      assert (v + suffix)[i + 0] == v[i] && v[i] in v && "//"[0] == '/' && ";"[0] == ';';
    }
  }

  lemma FirstMark(v: string, mark: string, rest: string)
    requires Clean(v) && (mark == "//" || mark == ";")
    ensures IndexOf(v + mark + rest, mark, 0) == |v|
  {
    assert v + mark + rest == v + (mark + rest);
    NoMark(v, mark + rest);
    var s := v + (mark + rest);
    assert s[|v|..|v| + |mark|] == mark;
    IndexOfIs(s, mark, 0, |v|);
  }

  lemma CleanHasNoMark(v: string)
    requires Clean(v)
    ensures IndexOf(v, "//", 0) == -1 && IndexOf(v, ";", 0) == -1
  {
    NoMark(v, "");
    assert v + "" == v;
    OccursAtChars(v, "//", |v|);
    OccursAtChars(v, ";", |v|);
  }

  /** A Clean value followed by an optional comment is read back as that value. */
  lemma StripAfterClean(v: string, suffix: string)
    requires Clean(v) && CommentOrNothing(suffix)
    ensures StripInlineComment(v + suffix) == v
  {
    var s := CommentKeptByTrimEnd(v, suffix);
    var t := v + s;
    var code := CutAt(t, IndexOf(t, "//", 0));
    CleanHasNoMark(v);
    TrimOfTrimmed(v);
    if StartsWith(s, "//") {
      assert t == v + "//" + s[2..];
      FirstMark(v, "//", s[2..]);
      assert code == v;
    } else if StartsWith(s, ";") {
      NoMark(v, s);
      OccursAtChars(t, "//", |v|);
      assert t[|v| + 0] == ';' && "//"[0] == '/';
      assert |code| > |v|;
      assert code == v + ";" + code[|v| + 1..];
      FirstMark(v, ";", code[|v| + 1..]);
      assert CutAt(code, |v|) == v;
    } else {
      assert t == v;
    }
  }

  // ----- The reader -----

  /** What a line means to the reader, before it is known in which section it stands. */
  datatype Line = Nothing | SectionStart(name: string) | ImageIs(image: string)

  datatype Scan = Scan(section: string, images: map<string, string>)

  /** A line of the form [..]; the two brackets are different characters, so such a line has length at least two. */
  predicate IsHeader(line: string) {
    |line| >= 2 && line[0] == '[' && line[|line| - 1] == ']'
  }

  predicate IsImageSection(section: string) {
    section != "" && StartsWithIgnoreCase(section, "img")
  }

  function ParseLine(rawLine: string): (r: Line)
    ensures r.ImageIs? ==> Clean(r.image)
  {
    var line := Trim(rawLine);
    var eq := IndexOf(line, "=", 0);
    if line == "" || StartsWith(line, "//") || StartsWith(line, ";") then Nothing
    else if IsHeader(line) then SectionStart(Trim(line[1..|line| - 1]))
    else if eq <= 0 || !EqualsIgnoreCase(Trim(line[..eq]), "img") then Nothing
    else
      var value := Backslashed(StripInlineComment(line[eq + 1..]));
      ReadValueClean(line[eq + 1..]);
      if value == "" then Nothing else ImageIs(value)
  }

  function Step(st: Scan, line: Line): Scan {
    match line
    case Nothing => st
    case SectionStart(name) => st.(section := name)
    case ImageIs(image) =>
      if IsImageSection(st.section) then st.(images := st.images[Lower(st.section) := image]) else st
  }

  function Run(lines: seq<Line>, st: Scan): Scan {
    if lines == [] then st else Run(lines[1..], Step(st, lines[0]))
  }

  function Parsed(lines: seq<string>): (r: seq<Line>)
    ensures |r| == |lines|
  {
    if lines == [] then [] else [ParseLine(lines[0])] + Parsed(lines[1..])
  }

  lemma {:induction false} ParsedAt(lines: seq<string>, i: nat)
    requires i < |lines|
    ensures Parsed(lines)[i] == ParseLine(lines[i])
  {
    if i > 0 { ParsedAt(lines[1..], i - 1); }
  }

  lemma {:induction false} ParsedConcat(a: seq<string>, b: seq<string>)
    ensures Parsed(a + b) == Parsed(a) + Parsed(b)
  {
    hide ParseLine;
    if a == [] {
      assert a + b == b;
    } else {
      assert (a + b)[0] == a[0] && (a + b)[1..] == a[1..] + b;
      ParsedConcat(a[1..], b);
    }
  }

  const START := Scan("", map[])

  /** The image map a fresh reading of the file produces. */
  function Images(lines: seq<string>): map<string, string> {
    Run(Parsed(lines), START).images
  }

  lemma {:induction false} RunConcat(a: seq<Line>, b: seq<Line>, st: Scan)
    ensures Run(a + b, st) == Run(b, Run(a, st))
  {
    if a == [] {
      assert a + b == b;
    } else {
      assert (a + b)[0] == a[0] && (a + b)[1..] == a[1..] + b;
      RunConcat(a[1..], b, Step(st, a[0]));
    }
  }

  /** Reading never looks at the images gathered so far: it only adds to them. */
  lemma {:induction false} RunFrame(lines: seq<Line>, st: Scan)
    ensures Run(lines, st).images == st.images + Run(lines, Scan(st.section, map[])).images
  {
    if lines != [] {
      var one := Step(st, lines[0]);
      var oneEmpty := Step(Scan(st.section, map[]), lines[0]);
      RunFrame(lines[1..], one);
      RunFrame(lines[1..], oneEmpty);
      assert one.images == st.images + oneEmpty.images;
    }
  }

  lemma {:induction false} RunClean(lines: seq<Line>, st: Scan)
    requires forall k :: k in st.images ==> Clean(st.images[k])
    requires forall i :: 0 <= i < |lines| && lines[i].ImageIs? ==> Clean(lines[i].image)
    ensures forall k :: k in Run(lines, st).images ==> Clean(Run(lines, st).images[k])
  {
    if lines != [] { RunClean(lines[1..], Step(st, lines[0])); }
  }

  /** The section the last header of some lines names. */
  function LastHeader(parsed: seq<Line>): string {
    if parsed == [] then ""
    else match parsed[|parsed| - 1]
      case SectionStart(name) => name
      case _ => LastHeader(parsed[..|parsed| - 1])
  }

  /** The last image a file gives for a key: given in a section that is so called, in lower case, and that
      begins with img. */
  function LastImage(parsed: seq<Line>, key: string): Option<string> {
    if parsed == [] then None
    else
      var n := |parsed| - 1;
      var section := LastHeader(parsed[..n]);
      if parsed[n].ImageIs? && Lower(section) == key && |section| >= 3 && Lower(section[..3]) == "img"
      then Some(parsed[n].image) else LastImage(parsed[..n], key)
  }

  /** The map the reader builds holds exactly these images. */
  lemma {:induction false} ImagesAreLast(parsed: seq<Line>, key: string)
    ensures var st := Run(parsed, START);
            st.section == LastHeader(parsed) &&
            (key in st.images <==> LastImage(parsed, key).Some?) &&
            (key in st.images ==> st.images[key] == LastImage(parsed, key).value)
  {
    if parsed != [] {
      var n := |parsed| - 1;
      ImagesAreLast(parsed[..n], key);
      assert parsed == parsed[..n] + [parsed[n]] && [parsed[n]][1..] == [];
      RunConcat(parsed[..n], [parsed[n]], START);
      assert Lower("img") == "img";
    }
  }

  // ----- The editor -----

  /** What a line means to the editor of one section. */
  datatype Mark = OwnHeader | OtherHeader | OwnImage | Unrelated

  function Header(section: string): string {
    "[" + section + "]"
  }

  function MarkOf(rawLine: string, section: string): Mark {
    var trimmed := Trim(rawLine);
    if IsHeader(trimmed) then
      if EqualsIgnoreCase(trimmed, Header(section)) then OwnHeader else OtherHeader
    else if StartsWithIgnoreCase(StripInlineComment(trimmed), "img=") then OwnImage
    else Unrelated
  }

  function Marks(lines: seq<string>, section: string): (r: seq<Mark>)
    ensures |r| == |lines|
  {
    if lines == [] then [] else [MarkOf(lines[0], section)] + Marks(lines[1..], section)
  }

  lemma {:induction false} MarksAt(lines: seq<string>, section: string, i: nat)
    requires i < |lines|
    ensures Marks(lines, section)[i] == MarkOf(lines[i], section)
  {
    if i > 0 { MarksAt(lines[1..], section, i - 1); }
  }

  /** The first header of the section, or the length. */
  function HeaderAt(marks: seq<Mark>, from: nat): (r: nat)
    requires from <= |marks|
    ensures from <= r <= |marks| && (r < |marks| ==> marks[r] == OwnHeader)
    ensures forall i :: from <= i < r ==> marks[i] != OwnHeader
    decreases |marks| - from
  {
    if from == |marks| || marks[from] == OwnHeader then from else HeaderAt(marks, from + 1)
  }

  /** The first image line before the header of another section, or the length. */
  function ImageAt(marks: seq<Mark>, from: nat): (r: nat)
    requires from <= |marks|
    ensures from <= r <= |marks| && (r < |marks| ==> marks[r] == OwnImage)
    ensures r < |marks| ==> forall i :: from <= i < r ==> marks[i] != OwnImage && marks[i] != OtherHeader
    decreases |marks| - from
  {
    if from == |marks| || marks[from] == OwnImage then from
    else if marks[from] == OtherHeader then |marks|
    else ImageAt(marks, from + 1)
  }

  /** When no image line is found, each one further down belongs to a later section. */
  lemma {:induction false} ImageAtNone(marks: seq<Mark>, from: nat, i: nat)
    requires from <= i < |marks| && ImageAt(marks, from) == |marks| && marks[i] == OwnImage
    ensures exists j :: from <= j < i && marks[j] == OtherHeader
    decreases |marks| - from
  {
    if marks[from] != OtherHeader { ImageAtNone(marks, from + 1, i); }
  }

  /** The image line with its value replaced; indentation and trailing comment stay. */
  function Rewritten(line: string, v: string): string {
    var img := IndexOf(Lower(line), "img=", 0);
    if img < 0 then line
    else
      var comment := FindInlineCommentIndex(line, img + 4);
      line[..img] + "img=" + v + (if comment >= 0 then line[comment..] else "")
  }

  /** Where the editor changes the file. */
  datatype Place = Missing | Replace(at: nat) | Insert(at: nat)

  function PlaceOf(marks: seq<Mark>): (p: Place)
    ensures p.Replace? ==> p.at < |marks|
    ensures p.Insert? ==> p.at <= |marks|
  {
    var h := HeaderAt(marks, 0);
    if h == |marks| then Missing
    else if ImageAt(marks, h + 1) < |marks| then Replace(ImageAt(marks, h + 1))
    else Insert(h + 1)
  }

  /** The edited file. */
  function Edited(lines: seq<string>, section: string, v: string): seq<string> {
    match PlaceOf(Marks(lines, section))
    case Missing => lines
    case Replace(at) => lines[at := Rewritten(lines[at], v)]
    case Insert(at) => lines[..at] + ["img=" + v] + lines[at..]
  }

  // ----- Editing and reading agree on which section they are in -----

  predicate ImageSectionName(section: string) {
    Trimmed(section) && IsImageSection(section)
  }

  lemma BracketsFold(line: string)
    ensures |line| >= 2 ==>
              && (Lower(line)[0] == '[' <==> line[0] == '[')
              && (Lower(line)[|line| - 1] == ']' <==> line[|line| - 1] == ']')
  {
  }

  lemma OwnHeaderName(line: string, section: string)
    requires Trimmed(section) && EqualsIgnoreCase(line, Header(section))
    ensures IsHeader(line) && EqualsIgnoreCase(Trim(line[1..|line| - 1]), section)
  {
    var n := |line|;
    assert n == |Lower(line)| == |Lower(Header(section))| == |section| + 2;
    BracketsFold(line);
    BracketsFold(Header(section));
    LowerSlice(line, 1, n - 1);
    LowerSlice(Header(section), 1, n - 1);
    assert Header(section)[1..n - 1] == section;
    LowerPreservesTrim(line[1..n - 1]);
    TrimOfTrimmed(section);
    LowerPreservesTrim(section);
  }

  /** The two views of one line. */
  lemma ViewsAgree(rawLine: string, section: string)
    requires Trimmed(section)
    ensures MarkOf(rawLine, section) == OwnHeader ==>
              ParseLine(rawLine).SectionStart? && EqualsIgnoreCase(ParseLine(rawLine).name, section)
    ensures ParseLine(rawLine).SectionStart? ==> MarkOf(rawLine, section) in {OwnHeader, OtherHeader}
  {
    var line := Trim(rawLine);
    if MarkOf(rawLine, section) == OwnHeader {
      OwnHeaderName(line, section);
      assert "//"[0] == '/' && ";"[0] == ';';
      assert line[..2][0] == line[0] == line[..1][0];
    }
  }

  lemma {:induction false} StaysInSection(lines: seq<Line>, section: string, st: Scan)
    requires EqualsIgnoreCase(st.section, section)
    requires forall i :: 0 <= i < |lines| && lines[i].SectionStart? ==> EqualsIgnoreCase(lines[i].name, section)
    ensures EqualsIgnoreCase(Run(lines, st).section, section)
  {
    if lines != [] { StaysInSection(lines[1..], section, Step(st, lines[0])); }
  }

  lemma EditIsInSection(lines: seq<string>, section: string)
    requires Trimmed(section) && !PlaceOf(Marks(lines, section)).Missing?
    ensures EqualsIgnoreCase(Run(Parsed(lines)[..PlaceOf(Marks(lines, section)).at], START).section, section)
  {
    hide ParseLine, MarkOf;
    var marks, parsed := Marks(lines, section), Parsed(lines);
    forall i | 0 <= i < |lines|
      ensures marks[i] == OwnHeader ==> parsed[i].SectionStart? && EqualsIgnoreCase(parsed[i].name, section)
      ensures parsed[i].SectionStart? ==> marks[i] in {OwnHeader, OtherHeader}
    {
      MarksAt(lines, section, i);
      ParsedAt(lines, i);
      ViewsAgree(lines[i], section);
    }
    SectionAtEdit(marks, parsed, section);
  }

  lemma SectionAtEdit(marks: seq<Mark>, parsed: seq<Line>, section: string)
    requires |marks| == |parsed| && !PlaceOf(marks).Missing?
    requires forall i :: 0 <= i < |marks| && marks[i] == OwnHeader ==>
               parsed[i].SectionStart? && EqualsIgnoreCase(parsed[i].name, section)
    requires forall i :: 0 <= i < |marks| && parsed[i].SectionStart? ==> marks[i] in {OwnHeader, OtherHeader}
    ensures EqualsIgnoreCase(Run(parsed[..PlaceOf(marks).at], START).section, section)
  {
    var h, at := HeaderAt(marks, 0), PlaceOf(marks).at;
    var rest := parsed[h + 1..at];
    assert parsed[..at] == parsed[..h] + ([parsed[h]] + rest);
    RunConcat(parsed[..h], [parsed[h]] + rest, START);
    assert ([parsed[h]] + rest)[1..] == rest;
    assert forall i :: 0 <= i < |rest| ==> rest[i] == parsed[h + 1 + i];
    StaysInSection(rest, section, Step(Run(parsed[..h], START), parsed[h]));
  }

  // ----- What the edited line means to the reader -----

  /** A line indent img=value defines the value's readable part, or nothing. */
  lemma ParseImgLine(indent: string, value: string)
    requires AllWhite(indent)
    ensures var v := Backslashed(StripInlineComment(value));
            ParseLine(indent + "img=" + value) == if v == "" then Nothing else ImageIs(v)
  {
    hide Trim, TrimEnd, TrimStart, IndexOf, StripInlineComment;
    var b := TrimEndShape(value);
    var rest := TrimEnd(value);
    var line := "img=" + rest;
    assert indent + "img=" + value == indent + line + b;
    if rest != "" { assert line[|line| - 1] == rest[|rest| - 1]; }
    TrimUnique(indent, line, b);
    ImgKey(rest);
    assert "" + rest + b == value;
    TrimAbsorbs("", rest, b);
    StripOfTrim(rest, value);
    assert line[4..] == rest;
  }

  lemma StripOfTrim(a: string, b: string)
    requires Trim(a) == Trim(b)
    ensures StripInlineComment(a) == StripInlineComment(b)
  {
  }

  lemma ImgKey(rest: string)
    ensures var line := "img=" + rest;
            IndexOf(line, "=", 0) == 3 && line[..3] == "img" && Trim(line[..3]) == "img"
            && !IsHeader(line) && !StartsWith(line, "//") && !StartsWith(line, ";")
  {
    var line := "img=" + rest;
    OccursAtChar(line, '=', 0);
    OccursAtChar(line, '=', 1);
    OccursAtChar(line, '=', 2);
    OccursAtChar(line, '=', 3);
    IndexOfIs(line, "=", 0, 3);
    TrimOfTrimmed("img");
    OccursAtChars(line, "//", 0);
    OccursAtChar(line, ';', 0);
    assert "//"[0] == '/';
  }

  lemma StripIsPrefix(t: string)
    requires Trimmed(t)
    ensures StripInlineComment(t) <= t
  {
    TrimOfTrimmed(t);
    var code := CutAt(t, IndexOf(t, "//", 0));
    var cut := CutAt(code, IndexOf(code, ";", 0));
    assert code <= t && cut <= code;
    TrimOfPrefix(t, cut);
  }

  lemma TrimOfPrefix(t: string, p: string)
    requires Trimmed(t) && p <= t
    ensures Trim(p) <= p
  {
    var b := TrimEndShape(p);
    assert TrimStart(p) == p;
  }

  lemma OwnImageStarts(rawLine: string, section: string)
    requires MarkOf(rawLine, section) == OwnImage
    ensures var t := Trim(rawLine); |t| >= 4 && Lower(t[..4]) == "img=" && !IsHeader(t)
  {
    var a, b := TrimShape(rawLine);
    var t := Trim(rawLine);
    StripIsPrefix(t);
    assert Lower("img=") == "img=";
    assert StripInlineComment(t)[..4] == t[..4];
  }

  lemma NotSectionStart(rawLine: string)
    requires !IsHeader(Trim(rawLine))
    ensures !ParseLine(rawLine).SectionStart?
  {
  }

  /** The line the editor replaces starts, after its indentation, with img=. */
  lemma ImageLineShape(rawLine: string, section: string)
    requires MarkOf(rawLine, section) == OwnImage
    ensures var img := IndexOf(Lower(rawLine), "img=", 0); 0 <= img <= |rawLine| && AllWhite(rawLine[..img])
    ensures !ParseLine(rawLine).SectionStart?
  {
    hide *;
    OwnImageStarts(rawLine, section);
    NotSectionStart(rawLine);
    var a, b := TrimShape(rawLine);
    var t := Trim(rawLine);
    ImgAfterIndent(a, t + b);
    assert rawLine == a + (t + b);
    assert (t + b)[..4] == t[..4];
  }

  lemma ImgAfterIndent(indent: string, rest: string)
    requires AllWhite(indent) && |rest| >= 4 && Lower(rest[..4]) == "img="
    ensures IndexOf(Lower(indent + rest), "img=", 0) == |indent|
    ensures (indent + rest)[..|indent|] == indent
  {
    var low := Lower(indent + rest);
    LowerSlice(indent + rest, |indent|, |indent| + 4);
    assert (indent + rest)[|indent|..|indent| + 4] == rest[..4];
    forall i | 0 <= i < |indent| ensures !OccursAt(low, "img=", i) {
      OccursAtChars(low, "img=", i);
      assert low[i + 0] == LowerChar(indent[i]) && "img="[0] == 'i' && IsWhite(indent[i]);
    }
    IndexOfIs(low, "img=", 0, |indent|);
  }

  lemma CommentSuffix(line: string, start: nat)
    ensures var c := FindInlineCommentIndex(line, start); c >= 0 ==> CommentOrNothing(line[c..])
  {
    var c := FindInlineCommentIndex(line, start);
    if c >= 0 {
      if OccursAt(line, "//", c) { assert line[c..][..2] == line[c..c + 2]; }
      else { assert line[c..][..1] == line[c..c + 1]; }
    }
  }

  /** The line the editor writes is read as the value, if that is Clean; it is never read as a section header. */
  lemma ParseRewritten(rawLine: string, section: string, v: string)
    requires MarkOf(rawLine, section) == OwnImage
    ensures !ParseLine(Rewritten(rawLine, v)).SectionStart?
    ensures Clean(v) ==> ParseLine(Rewritten(rawLine, v)) == ImageIs(v)
  {
    ImageLineShape(rawLine, section);
    var img := IndexOf(Lower(rawLine), "img=", 0);
    var comment := FindInlineCommentIndex(rawLine, img + 4);
    var suffix := if comment >= 0 then rawLine[comment..] else "";
    CommentSuffix(rawLine, img + 4);
    ParseWritten(rawLine[..img], v, suffix);
  }

  lemma ParseWritten(indent: string, v: string, suffix: string)
    requires AllWhite(indent) && CommentOrNothing(suffix)
    ensures !ParseLine(indent + "img=" + v + suffix).SectionStart?
    ensures Clean(v) ==> ParseLine(indent + "img=" + v + suffix) == ImageIs(v)
  {
    assert indent + "img=" + v + suffix == indent + "img=" + (v + suffix);
    ParseImgLine(indent, v + suffix);
    if Clean(v) {
      StripAfterClean(v, suffix);
      assert Backslashed(v) == v;
    }
  }

  // ----- Main results -----

  ghost predicate AgreeExcept(a: map<string, string>, b: map<string, string>, key: string) {
    forall k :: k != key ==> (k in a <==> k in b) && (k in a ==> a[k] == b[k])
  }

  /** The images defined behind the edited line, which the edit cannot influence. */
  function LaterImages(lines: seq<string>, section: string): map<string, string> {
    var parsed := Parsed(lines);
    match PlaceOf(Marks(lines, section))
    case Missing => map[]
    case Replace(at) => Run(parsed[at + 1..], Scan(Run(parsed[..at], START).section, map[])).images
    case Insert(at) => Run(parsed[at..], Scan(Run(parsed[..at], START).section, map[])).images
  }

  /** One line put between two parts of a file, read in a section it does not leave. */
  lemma ReadAround(pre: seq<Line>, mid: seq<Line>, post: seq<Line>)
    requires |mid| <= 1 && forall i :: 0 <= i < |mid| ==> !mid[i].SectionStart?
    ensures var st := Run(pre, START);
            Run(pre + mid + post, START).images
              == Run(mid, st).images + Run(post, Scan(st.section, map[])).images
  {
    RunConcat(pre + mid, post, START);
    RunConcat(pre, mid, START);
    RunFrame(post, Run(mid, Run(pre, START)));
  }

  lemma ImageSectionFold(a: string, section: string)
    requires EqualsIgnoreCase(a, section) && IsImageSection(section)
    ensures IsImageSection(a)
  {
    assert |a| == |Lower(a)| == |section|;
    LowerSlice(a, 0, 3);
    LowerSlice(section, 0, 3);
  }

  /** A line inside the section touches at most the section's own image. */
  lemma StepTouchesOnly(st: Scan, section: string, line: Line)
    requires EqualsIgnoreCase(st.section, section) && IsImageSection(section) && !line.SectionStart?
    ensures AgreeExcept(Run([line], st).images, st.images, Lower(section))
    ensures line.ImageIs? ==>
              Lower(section) in Run([line], st).images && Run([line], st).images[Lower(section)] == line.image
  {
    ImageSectionFold(st.section, section);
    assert Run([line], st) == Run([], Step(st, line));
  }

  /** Writing one line in place of at most one other, seen by the reader. */
  lemma Splice(pre: seq<Line>, before: seq<Line>, after: Line, post: seq<Line>, section: string)
    returns (was: map<string, string>, now: map<string, string>)
    requires EqualsIgnoreCase(Run(pre, START).section, section) && IsImageSection(section)
    requires |before| <= 1 && (|before| == 1 ==> !before[0].SectionStart?) && !after.SectionStart?
    ensures AgreeExcept(was, now, Lower(section))
    ensures after.ImageIs? ==> Lower(section) in now && now[Lower(section)] == after.image
    ensures var later := Run(post, Scan(Run(pre, START).section, map[])).images;
            Run(pre + before + post, START).images == was + later &&
            Run(pre + [after] + post, START).images == now + later
  {
    var st := Run(pre, START);
    was, now := Run(before, st).images, Run([after], st).images;
    StepTouchesOnly(st, section, after);
    if |before| == 1 {
      StepTouchesOnly(st, section, before[0]);
      assert before == [before[0]];
    }
    ReadAround(pre, before, post);
    ReadAround(pre, [after], post);
  }

  /** The edit as a splice: what it replaces, what it writes, and what lies around. */
  lemma EditIsSplice(lines: seq<string>, section: string, v: string)
    returns (pre: seq<Line>, before: seq<Line>, after: Line, post: seq<Line>)
    requires ImageSectionName(section) && !PlaceOf(Marks(lines, section)).Missing?
    ensures Parsed(lines) == pre + before + post && Parsed(Edited(lines, section, v)) == pre + [after] + post
    ensures EqualsIgnoreCase(Run(pre, START).section, section)
    ensures |before| <= 1 && (|before| == 1 ==> !before[0].SectionStart?)
    ensures !after.SectionStart? && (Clean(v) ==> after == ImageIs(v))
    ensures LaterImages(lines, section) == Run(post, Scan(Run(pre, START).section, map[])).images
  {
    hide MarkOf, ParseLine, Rewritten, IsImageSection;
    var place, parsed := PlaceOf(Marks(lines, section)), Parsed(lines);
    pre := parsed[..place.at];
    EditIsInSection(lines, section);
    if place.Replace? {
      var line := lines[place.at];
      MarksAt(lines, section, place.at);
      ImageLineShape(line, section);
      ParseRewritten(line, section, v);
      before, after, post := [ParseLine(line)], ParseLine(Rewritten(line, v)), parsed[place.at + 1..];
      ParsedAround(lines, place.at, place.at + 1, Rewritten(line, v));
      assert lines[place.at..place.at + 1] == [line];
      ParsedOne(line);
      assert lines[place.at := Rewritten(line, v)] == lines[..place.at] + [Rewritten(line, v)] + lines[place.at + 1..];
    } else {
      assert "" + "img=" + v + "" == "img=" + v;
      ParseWritten("", v, "");
      before, after, post := [], ParseLine("img=" + v), parsed[place.at..];
      ParsedAround(lines, place.at, place.at, "img=" + v);
    }
  }

  lemma ParsedParts(a: seq<string>, b: seq<string>, c: seq<string>)
    ensures Parsed(a + b + c) == Parsed(a) + Parsed(b) + Parsed(c)
  {
    hide ParseLine;
    ParsedConcat(a + b, c);
    ParsedConcat(a, b);
  }

  lemma ParsedSlices(lines: seq<string>, i: nat)
    requires i <= |lines|
    ensures Parsed(lines)[..i] == Parsed(lines[..i]) && Parsed(lines)[i..] == Parsed(lines[i..])
  {
    hide *;
    assert lines == lines[..i] + lines[i..];
    ParsedConcat(lines[..i], lines[i..]);
  }

  lemma ParsedOne(line: string)
    ensures Parsed([line]) == [ParseLine(line)]
  {
    hide ParseLine;
  }

  lemma ParsedAround(lines: seq<string>, i: nat, j: nat, line: string)
    requires i <= j <= |lines|
    ensures Parsed(lines) == Parsed(lines)[..i] + Parsed(lines[i..j]) + Parsed(lines)[j..]
    ensures Parsed(lines[..i] + [line] + lines[j..]) == Parsed(lines)[..i] + [ParseLine(line)] + Parsed(lines)[j..]
  {
    hide *;
    var a, b, c := lines[..i], lines[i..j], lines[j..];
    ParsedSlices(lines, i);
    ParsedSlices(lines, j);
    ParsedParts(a, [line], c);
    ParsedOne(line);
    assert Parsed(lines) == Parsed(a) + Parsed(b) + Parsed(c) by {
      ParsedParts(a, b, c);
      SplitInThree(lines, i, j);
    }
  }

  /** Old and new image map, split at the edited line. */
  lemma EditedImages(lines: seq<string>, section: string, v: string)
    returns (was: map<string, string>, now: map<string, string>)
    requires ImageSectionName(section) && !PlaceOf(Marks(lines, section)).Missing?
    ensures AgreeExcept(was, now, Lower(section))
    ensures Clean(v) ==> Lower(section) in now && now[Lower(section)] == v
    ensures Images(lines) == was + LaterImages(lines, section)
    ensures Images(Edited(lines, section, v)) == now + LaterImages(lines, section)
  {
    var pre, before, after, post := EditIsSplice(lines, section, v);
    was, now := Splice(pre, before, after, post, section);
  }

  /** No edit, whatever the value, changes the image of another section. */
  lemma OtherSectionsKept(lines: seq<string>, section: string, v: string)
    requires ImageSectionName(section)
    ensures AgreeExcept(Images(Edited(lines, section, v)), Images(lines), Lower(section))
  {
    if !PlaceOf(Marks(lines, section)).Missing? {
      var was, now := EditedImages(lines, section, v);
    }
  }

  /** The edited file reads as the old map with just this section set, exactly when the value
      is one the reader can produce and no line behind the edited one redefines the section
      to something else. */
  lemma EditThenRead(lines: seq<string>, section: string, v: string)
    requires ImageSectionName(section) && !PlaceOf(Marks(lines, section)).Missing?
    ensures Images(Edited(lines, section, v)) == Images(lines)[Lower(section) := v]
        <==> Clean(v) &&
             (Lower(section) in LaterImages(lines, section) ==> LaterImages(lines, section)[Lower(section)] == v)
  {
    var was, now := EditedImages(lines, section, v);
    hide ParseLine, MarkOf, Rewritten;
    AllClean(Edited(lines, section, v));
    SetLater(was, now, LaterImages(lines, section), Lower(section), v);
  }

  lemma AllClean(lines: seq<string>)
    ensures forall k :: k in Images(lines) ==> Clean(Images(lines)[k])
  {
    hide ParseLine;
    forall i | 0 <= i < |lines| ensures Parsed(lines)[i].ImageIs? ==> Clean(Parsed(lines)[i].image) {
      ParsedAt(lines, i);
    }
    RunClean(Parsed(lines), START);
  }

  lemma SetLater(was: map<string, string>, now: map<string, string>, later: map<string, string>, k: string, v: string)
    requires AgreeExcept(was, now, k) && (Clean(v) ==> k in now && now[k] == v)
    requires k in now + later ==> Clean((now + later)[k])
    ensures now + later == (was + later)[k := v] <==> Clean(v) && (k in later ==> later[k] == v)
  {
    var edited, target := now + later, (was + later)[k := v];
    assert AgreeExcept(edited, target, k);
    if k in edited && edited[k] == v {
      assert edited.Keys == target.Keys;
    } else {
      assert k in target && target[k] == v;
    }
  }

  /** The editor leaves the file alone exactly when no line spells the section's header. */
  lemma MissingHeader(lines: seq<string>, section: string)
    ensures PlaceOf(Marks(lines, section)).Missing?
        <==> forall i :: 0 <= i < |lines| ==> !EqualsIgnoreCase(Trim(lines[i]), Header(section))
  {
    forall i | 0 <= i < |lines|
      ensures Marks(lines, section)[i] == OwnHeader <==> EqualsIgnoreCase(Trim(lines[i]), Header(section))
    {
      MarksAt(lines, section, i);
      HeaderMark(lines[i], section);
    }
  }

  lemma HeaderMark(rawLine: string, section: string)
    ensures MarkOf(rawLine, section) == OwnHeader <==> EqualsIgnoreCase(Trim(rawLine), Header(section))
  {
    var line := Trim(rawLine);
    if EqualsIgnoreCase(line, Header(section)) {
      assert |line| == |Lower(line)| == |Lower(Header(section))|;
      BracketsFold(line);
      BracketsFold(Header(section));
    }
  }

  // ----- What the edit leaves in the file -----

  predicate HeaderLine(line: string) { IsHeader(Trim(line)) }

  predicate OwnHeaderLine(line: string, section: string) { Lower(Trim(line)) == Lower("[" + section + "]") }

  /** An image line, its comment aside. */
  predicate ImageLine(line: string) {
    var code := StripInlineComment(Trim(line));
    !HeaderLine(line) && |code| >= 4 && Lower(code[..4]) == "img="
  }

  /** h is the first header of the section, and no header of another stands between it and k. */
  predicate InSectionAt(lines: seq<string>, section: string, h: nat, k: nat)
    requires h < k <= |lines|
  {
    && OwnHeaderLine(lines[h], section)
    && (forall j :: 0 <= j < h ==> !OwnHeaderLine(lines[j], section))
    && (forall j :: h < j < k ==> HeaderLine(lines[j]) ==> OwnHeaderLine(lines[j], section))
  }

  /** Of an image line the indentation stays, and so does everything from the first comment mark behind the
      key on; only what stands between is replaced. */
  ghost predicate ValueReplaced(was: string, now: string, v: string) {
    exists indent, key, value, comment ::
      && was == indent + key + value + comment && now == indent + "img=" + v + comment
      && AllWhite(indent) && Lower(key) == "img=" && CommentOrNothing(comment)
      && NoMarkWithin(value, comment)
  }

  /** No comment mark begins in the value. */
  predicate NoMarkWithin(value: string, comment: string) {
    forall i :: 0 <= i < |value| ==> !OccursAt(value + comment, "//", i) && !OccursAt(value + comment, ";", i)
  }

  /** The first image line of the section, the only line that changes. */
  ghost predicate OneLineChanged(was: seq<string>, now: seq<string>, section: string, v: string, h: nat, k: nat) {
    && h < k < |was| && InSectionAt(was, section, h, k)
    && ImageLine(was[k]) && (forall j :: h < j < k ==> !ImageLine(was[j]))
    && |now| == |was| && (forall j :: 0 <= j < |was| && j != k ==> now[j] == was[j])
    && ValueReplaced(was[k], now[k], v)
  }

  /** There is no image line in the section: one more line, right behind the header. */
  ghost predicate OneLineAdded(was: seq<string>, now: seq<string>, section: string, v: string, h: nat) {
    && h < |was| && InSectionAt(was, section, h, h + 1)
    && now == was[..h + 1] + ["img=" + v] + was[h + 1..]
    && (forall k :: h < k < |was| && InSectionAt(was, section, h, k) ==> !ImageLine(was[k]))
  }

  ghost predicate RightEdit(was: seq<string>, now: seq<string>, section: string, v: string) {
    (exists h, k :: OneLineChanged(was, now, section, v, h, k)) || (exists h :: OneLineAdded(was, now, section, v, h))
  }

  lemma MarkMeans(line: string, section: string)
    ensures MarkOf(line, section) == OwnHeader <==> OwnHeaderLine(line, section)
    ensures MarkOf(line, section) in {OwnHeader, OtherHeader} <==> HeaderLine(line)
    ensures MarkOf(line, section) == OwnImage <==> ImageLine(line)
  {
    HeaderMark(line, section);
    assert Lower("img=") == "img=";
  }

  lemma KeyAt(line: string, img: int)
    requires img == IndexOf(Lower(line), "img=", 0) >= 0
    ensures img + 4 <= |line| && Lower(line[img..img + 4]) == "img="
  {
    LowerSlice(line, img, img + 4);
  }

  lemma OccursShifted(s: string, p: string, from: nat, i: nat)
    requires from <= |s|
    ensures OccursAt(s[from..], p, i) <==> OccursAt(s, p, from + i)
  {
    if from + i + |p| <= |s| { assert s[from..][i..i + |p|] == s[from + i..from + i + |p|]; }
  }

  lemma CommentStart(line: string, from: nat) returns (end: nat)
    requires from <= |line|
    ensures from <= end <= |line| && CommentOrNothing(line[end..])
    ensures forall i :: from <= i < end ==> !OccursAt(line, "//", i) && !OccursAt(line, ";", i)
    ensures var mark := FindInlineCommentIndex(line, from);
            line[end..] == if mark >= 0 then line[mark..] else ""
  {
    var mark := FindInlineCommentIndex(line, from);
    CommentSuffix(line, from);
    end := if mark >= 0 then mark else |line|;
  }

  lemma NoMarkBefore(line: string, from: nat, end: nat)
    requires from <= end <= |line|
    requires forall i :: from <= i < end ==> !OccursAt(line, "//", i) && !OccursAt(line, ";", i)
    ensures NoMarkWithin(line[from..end], line[end..])
  {
    hide OccursAt;
    assert line[from..end] + line[end..] == line[from..];
    forall i | 0 <= i < end - from ensures !OccursAt(line[from..], "//", i) && !OccursAt(line[from..], ";", i) {
      OccursShifted(line, "//", from, i);
      OccursShifted(line, ";", from, i);
    }
  }

  lemma FourParts(line: string, a: nat, b: nat, c: nat)
    requires a <= b <= c <= |line|
    ensures line == line[..a] + line[a..b] + line[b..c] + line[c..]
  {
  }

  lemma RewrittenShape(line: string, section: string, v: string)
    requires MarkOf(line, section) == OwnImage
    ensures ValueReplaced(line, Rewritten(line, v), v)
  {
    hide MarkOf, Trim, StripInlineComment, IndexOf, OccursAt, ParseLine, FindInlineCommentIndex, NoMarkWithin;
    ImageLineShape(line, section);
    var img := IndexOf(Lower(line), "img=", 0);
    KeyAt(line, img);
    var end := CommentStart(line, img + 4);
    NoMarkBefore(line, img + 4, end);
    FourParts(line, img, img + 4, end);
    ShapeIs(line, Rewritten(line, v), v, line[..img], line[img..img + 4], line[img + 4..end], line[end..]);
  }

  lemma ShapeIs(was: string, now: string, v: string, indent: string, key: string, value: string, comment: string)
    requires was == indent + key + value + comment && now == indent + "img=" + v + comment
    requires AllWhite(indent) && Lower(key) == "img=" && CommentOrNothing(comment) && NoMarkWithin(value, comment)
    ensures ValueReplaced(was, now, v)
  {
  }

  /** The same in terms of the marks. */
  predicate MarksMean(marks: seq<Mark>, lines: seq<string>, section: string) {
    |marks| == |lines| && forall j :: 0 <= j < |lines| ==>
      && (marks[j] == OwnHeader <==> OwnHeaderLine(lines[j], section))
      && (marks[j] in {OwnHeader, OtherHeader} <==> HeaderLine(lines[j]))
      && (marks[j] == OwnImage <==> ImageLine(lines[j]))
  }

  lemma MarksAreMeant(lines: seq<string>, section: string)
    ensures MarksMean(Marks(lines, section), lines, section)
  {
    hide MarkOf, ImageLine, HeaderLine, OwnHeaderLine;
    forall j | 0 <= j < |lines|
      ensures MarkOf(lines[j], section) == Marks(lines, section)[j]
      ensures MarkOf(lines[j], section) == OwnHeader <==> OwnHeaderLine(lines[j], section)
      ensures MarkOf(lines[j], section) in {OwnHeader, OtherHeader} <==> HeaderLine(lines[j])
      ensures MarkOf(lines[j], section) == OwnImage <==> ImageLine(lines[j])
    {
      MarksAt(lines, section, j);
      MarkMeans(lines[j], section);
    }
  }

  lemma PlaceInSection(marks: seq<Mark>, lines: seq<string>, section: string)
    requires MarksMean(marks, lines, section) && !PlaceOf(marks).Missing?
    ensures var h, place := HeaderAt(marks, 0), PlaceOf(marks);
            h < |lines| &&
            if place.Replace? then
              h < place.at && InSectionAt(lines, section, h, place.at) && ImageLine(lines[place.at]) &&
              forall j :: h < j < place.at ==> !ImageLine(lines[j])
            else place.at == h + 1 && InSectionAt(lines, section, h, h + 1)
  {
    hide ImageLine, HeaderLine, OwnHeaderLine;
  }

  lemma NoImageInSection(marks: seq<Mark>, lines: seq<string>, section: string, k: nat)
    requires MarksMean(marks, lines, section) && PlaceOf(marks).Insert?
    requires HeaderAt(marks, 0) < k < |lines| && InSectionAt(lines, section, HeaderAt(marks, 0), k)
    ensures !ImageLine(lines[k])
  {
    hide ImageLine, HeaderLine, OwnHeaderLine;
    if marks[k] == OwnImage { ImageAtNone(marks, HeaderAt(marks, 0) + 1, k); }
  }

  /** Every successful edit either changes the value of one line or adds one. */
  lemma EditIsRight(lines: seq<string>, section: string, v: string)
    requires !PlaceOf(Marks(lines, section)).Missing?
    ensures RightEdit(lines, Edited(lines, section, v), section, v)
  {
    hide MarkOf, Marks, Rewritten, ImageLine, InSectionAt, ValueReplaced, MarksMean, ImageAt;
    var marks, now := Marks(lines, section), Edited(lines, section, v);
    var h, place := HeaderAt(marks, 0), PlaceOf(marks);
    MarksAreMeant(lines, section);
    PlaceInSection(marks, lines, section);
    if place.Replace? {
      MarksAt(lines, section, place.at);
      RewrittenShape(lines[place.at], section, v);
      assert OneLineChanged(lines, now, section, v, h, place.at);
    } else {
      forall k | h < k < |lines| && InSectionAt(lines, section, h, k) ensures !ImageLine(lines[k]) {
        NoImageInSection(marks, lines, section, k);
      }
      assert OneLineAdded(lines, now, section, v, h);
    }
  }

  // ----- The form's state -----

  class SpriteSettings {
    var fileExists: bool
    var lines: seq<string>
    var spriteSectionImageMap: map<string, string>

    constructor (fileExists: bool, lines: seq<string>)
      ensures this.fileExists == fileExists && this.lines == lines && spriteSectionImageMap == map[]
    {
      this.fileExists, this.lines, this.spriteSectionImageMap := fileExists, lines, map[];
    }

    /** The in-memory map is what a fresh reading of the file would give. */
    predicate Coherent()
      reads this
    {
      fileExists ==> spriteSectionImageMap == Images(lines)
    }

    method LoadSpriteDefinitions()
      modifies this`spriteSectionImageMap
      ensures spriteSectionImageMap == if fileExists then Images(lines) else map[]
      ensures Coherent()
    {
      spriteSectionImageMap := map[];
      if !fileExists { return; }
      var currentSection := "";
      var i := 0;
      ghost var parsed := Parsed(lines);
      while i < |lines|
        invariant 0 <= i <= |lines|
        invariant Run(parsed, START) == Run(parsed[i..], Scan(currentSection, spriteSectionImageMap))
      {
        var line := ParseLine(lines[i]);
        ParsedAt(lines, i);
        assert parsed[i..][0] == line && parsed[i..][1..] == parsed[i + 1..];
        i := i + 1;
        match line {
          case Nothing =>
          case SectionStart(name) => currentSection := name;
          case ImageIs(image) =>
            if !IsImageSection(currentSection) { continue; }
            spriteSectionImageMap := spriteSectionImageMap[Lower(currentSection) := image];
        }
      }
    }

    /** First pass: replace the section's image line. */
    method RewriteImageLine(section: string, newValue: string) returns (updated: bool)
      modifies this`lines
      ensures updated <==> PlaceOf(Marks(old(lines), section)).Replace?
      ensures lines == if updated then Edited(old(lines), section, newValue) else old(lines)
    {
      hide MarkOf, Rewritten;
      ghost var marks := Marks(lines, section);
      ghost var h := HeaderAt(marks, 0);
      var inSection := false;
      for i := 0 to |lines|
        invariant lines == old(lines)
        invariant inSection <==> h < i
        invariant inSection ==> ImageAt(marks, h + 1) == ImageAt(marks, i)
      {
        var mark := MarkOf(lines[i], section);
        MarksAt(lines, section, i);
        if mark == OwnHeader {
          inSection := true;
        } else if inSection && mark == OtherHeader {
          return false;
        } else if inSection && mark == OwnImage {
          lines := lines[i := Rewritten(lines[i], newValue)];
          return true;
        }
      }
      return false;
    }

    /** Second pass: put a new image line under the section's header. */
    method InsertAfterHeader(section: string, newValue: string) returns (updated: bool)
      modifies this`lines
      ensures var h := HeaderAt(Marks(old(lines), section), 0);
              (updated <==> h < |old(lines)|) &&
              lines == if updated then old(lines)[..h + 1] + ["img=" + newValue] + old(lines)[h + 1..] else old(lines)
    {
      hide MarkOf, IndexOf, Trim;
      ghost var marks := Marks(lines, section);
      for i := 0 to |lines|
        invariant i <= HeaderAt(marks, 0) && lines == old(lines)
      {
        HeaderMark(lines[i], section);
        MarksAt(lines, section, i);
        if EqualsIgnoreCase(Trim(lines[i]), Header(section)) {
          lines := lines[..i + 1] + ["img=" + newValue] + lines[i + 1..];
          return true;
        }
      }
      return false;
    }

    method UpdateSpriteDefinition(section: string, newValue: string) returns (updated: bool)
      modifies this`lines
      ensures updated <==> fileExists && !PlaceOf(Marks(old(lines), section)).Missing?
      ensures lines == if updated then Edited(old(lines), section, newValue) else old(lines)
      ensures updated ==> RightEdit(old(lines), lines, section, newValue)
    {
      hide RightEdit, MarkOf, Rewritten;
      if !fileExists { return false; }
      updated := RewriteImageLine(section, newValue);
      if !updated { updated := InsertAfterHeader(section, newValue); }
      if updated { EditIsRight(old(lines), section, newValue); }
    }

    /** The dialog's answer: write the file, set the map, and refresh the buttons, which reads the file
        again. What was set directly stays exactly when the reader finds the same. */
    method SelectImage(section: string, storedPath: string) returns (ok: bool)
      requires ImageSectionName(section)
      modifies this
      ensures fileExists == old(fileExists)
      ensures ok <==>
                fileExists &&
                exists i :: 0 <= i < |old(lines)| && EqualsIgnoreCase(Trim(old(lines)[i]), Header(section))
      ensures !ok ==> lines == old(lines) && spriteSectionImageMap == old(spriteSectionImageMap)
      ensures ok ==> Coherent() && AgreeExcept(Images(lines), Images(old(lines)), Lower(section))
      ensures ok && old(Coherent()) ==>
                (spriteSectionImageMap == old(spriteSectionImageMap)[Lower(section) := storedPath] <==>
                 Clean(storedPath) &&
                 (Lower(section) in LaterImages(old(lines), section)
                  ==> LaterImages(old(lines), section)[Lower(section)] == storedPath))
    {
      hide MarkOf, ParseLine, Rewritten, IndexOf, Trim, StripInlineComment, IsImageSection, Images, LaterImages;
      MissingHeader(lines, section);
      OtherSectionsKept(lines, section, storedPath);
      ok := UpdateSpriteDefinition(section, storedPath);
      if ok {
        EditThenRead(old(lines), section, storedPath);
        spriteSectionImageMap := spriteSectionImageMap[Lower(section) := storedPath];
        LoadSpriteDefinitions();
      }
    }
  }

  /** A path with a semicolon, legal in a Windows file name, is written but not read back: the map loses it
      again as the buttons are refreshed. */
  lemma SemicolonPathNotReadBack()
    ensures var lines, v := ["[img11]"], "a;b.png";
            Images(Edited(lines, "img11", v)) != Images(lines)["img11" := v]
  {
    var lines, v := ["[img11]"], "a;b.png";
    var section := "img11";
    assert v[1] == ';';
    assert !Clean(v);
    assert Lower(section) == section;
    assert section[..3] == "img";
    TrimOfTrimmed("[img11]");
    assert Header(section) == "[img11]";
    MissingHeader(lines, section);
    assert EqualsIgnoreCase(Trim(lines[0]), Header(section));
    EditThenRead(lines, section, v);
  }
}
