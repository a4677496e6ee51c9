/** The command buttons' configuration: captions and commands stored in settings.ini, read with
    defaults, legacy formats and a one-time migration. */
module ButtonConfig {
  import opened ButtonCatalog
  import opened Text

  // ----- Replacing -----

  /** s.Replace(p, [c]): left to right, without overlaps. */
  function Replace(s: string, p: string, c: char): string
    requires p != ""
    decreases |s|
  {
    if |s| < |p| then s
    else if s[..|p|] == p then [c] + Replace(s[|p|..], p, c)
    else [s[0]] + Replace(s[1..], p, c)
  }

  const CRLF := "\\r\\n"
  const LF := "\\n"

  /** A line break is stored as backslash and n. */
  function EscapeCaption(s: string): string {
    if s == "" then "" else (if s[0] == '\n' then LF else [s[0]]) + EscapeCaption(s[1..])
  }

  function UnescapeCaption(s: string): string {
    Replace(Replace(s, CRLF, '\n'), LF, '\n')
  }

  // ----- Configurations -----

  datatype Config = Config(caption: string, command: string, rightCaption: string, rightCommand: string)

  function PrintLeft(c: Config): string {
    EscapeCaption(c.caption) + "|" + c.command
  }

  function PrintRight(c: Config): string {
    EscapeCaption(c.rightCaption) + "|" + c.rightCommand
  }

  /** PersistButtonSetting stores a cleared right-click function as a word of its own. */
  function PersistedRight(c: Config): string {
    if c.rightCommand != "" then PrintRight(c) else "none"
  }

  function ParseLeft(value: string, c: Config): Config {
    var bar := IndexOf(value, "|", 0);
    var caption := UnescapeCaption(Trim(if bar >= 0 then value[..bar] else value));
    var command := Trim(if bar >= 0 then value[bar + 1..] else "");
    c.(caption := if caption != "" then caption else c.caption,
       command := if command != "" then command else c.command)
  }

  predicate CommandOnly(trimmed: string) {
    StartsWithIgnoreCase(trimmed, "SEND=") || StartsWithIgnoreCase(trimmed, "SIGNAL|")
  }

  function ParseRight(value: string, c: Config): Config {
    var trimmed := Trim(value);
    if trimmed == "" || EqualsIgnoreCase(trimmed, "none") then c.(rightCommand := "", rightCaption := "")
    else if CommandOnly(trimmed) then
      var isDefault := EqualsIgnoreCase(trimmed, c.rightCommand);
      c.(rightCommand := trimmed, rightCaption := if isDefault && c.rightCaption != "" then c.rightCaption else trimmed)
    else
      var bar := IndexOf(trimmed, "|", 0);
      var caption := UnescapeCaption(Trim(if bar >= 0 then trimmed[..bar] else trimmed));
      var command := Trim(if bar >= 0 then trimmed[bar + 1..] else trimmed);
      c.(rightCommand := command,
         rightCaption := if command == "" then "" else if caption != "" then caption else command)
  }

  // ----- The store -----

  /** The two values of a button in the [Buttons] section; a missing key reads as "". */
  datatype Slot = Slot(left: string, right: string)

  const BUFFER := 255

  /** GetIniValue reads into a buffer of 256 characters. */
  function Read(value: string): string {
    if |value| > BUFFER then value[..BUFFER] else value
  }

  predicate Blank(s: string) { Trim(s) == "" }

  /** One round of the loading loop. */
  function LoadOne(slot: Slot, c: Config, canPersist: bool): (Slot, Config) {
    var left := if Blank(Read(slot.left)) then PrintLeft(c) else Read(slot.left);
    var c1 := ParseLeft(left, c);
    var useDefault := Blank(Read(slot.right)) && c1.rightCommand != "";
    var right := if useDefault then PrintRight(c1) else Read(slot.right);
    (Slot(if canPersist && Blank(Read(slot.left)) then left else slot.left,
          if canPersist && useDefault then right else slot.right),
     ParseRight(right, c1))
  }

  const OLD_BUTTON := 13
  const NEW_BUTTON := 10

  predicate LegacyDefault(value: string) {
    EqualsIgnoreCase(Trim(value), "Borderless Fullscreen|SIGNAL|BORDERLESS_FS") ||
      EqualsIgnoreCase(Trim(value), "SIGNAL|BORDERLESS_FS")
  }

  predicate Migrates(store: seq<Slot>)
    requires |store| > OLD_BUTTON
  {
    LegacyDefault(Read(store[OLD_BUTTON].right)) && Blank(Read(store[NEW_BUTTON].right))
  }

  /** Button 11 took over the right-click default of button 14. */
  function Migrate(store: seq<Slot>): (r: seq<Slot>)
    requires |store| > OLD_BUTTON
    ensures |r| == |store|
  {
    if Migrates(store) then
      store[NEW_BUTTON := store[NEW_BUTTON].(right := Trim(Read(store[OLD_BUTTON].right)))]
           [OLD_BUTTON := store[OLD_BUTTON].(right := "none")]
    else store
  }

  /** LoadButtonConfiguration: the store and the configurations afterwards. */
  function Load(store: seq<Slot>, configs: seq<Config>, canPersist: bool): (r: (seq<Slot>, seq<Config>))
    requires |store| == |configs| > OLD_BUTTON
    ensures |r.0| == |r.1| == |store|
  {
    var migrated := if canPersist then Migrate(store) else store;
    (seq(|store|, i requires 0 <= i < |store| => LoadOne(migrated[i], configs[i], canPersist).0),
     seq(|store|, i requires 0 <= i < |store| => LoadOne(migrated[i], configs[i], canPersist).1))
  }

  // ----- Escaping -----

  lemma EscapeStart(s: string)
    requires s != ""
    ensures EscapeCaption(s) != "" && EscapeCaption(s)[0] == if s[0] == '\n' then '\\' else s[0]
  {
  }

  /** backslash, r, line break */
  const BROKEN_CR := "\\r\n"

  lemma ContainsSplit(s: string, p: string)
    requires s != "" && p != ""
    ensures Contains(s, p) <==> OccursAt(s, p, 0) || Contains(s[1..], p)
  {
    if Contains(s, p) {
      var i :| 0 <= i <= |s| - |p| && OccursAt(s, p, i);
      if i > 0 { assert OccursAt(s[1..], p, i - 1) by { assert s[1..][i - 1..i - 1 + |p|] == s[i..i + |p|]; } }
    }
    if Contains(s[1..], p) {
      var i :| 0 <= i <= |s[1..]| - |p| && OccursAt(s[1..], p, i);
      assert OccursAt(s, p, i + 1) by { assert s[1..][i..i + |p|] == s[i + 1..i + 1 + |p|]; }
    }
  }

  /** Without a literal backslash-n, undoing the escapes of line breaks restores the caption. */
  lemma {:induction false} UnescapeLF(s: string)
    requires !Contains(s, LF)
    ensures Replace(EscapeCaption(s), LF, '\n') == s
  {
    if s != "" {
      var e := EscapeCaption(s);
      ContainsSplit(s, LF);
      OccursAtChars(s, LF, 0);
      UnescapeLF(s[1..]);
      assert s == [s[0]] + s[1..];
      if s[0] == '\n' {
        assert e[..2] == LF && e[2..] == EscapeCaption(s[1..]);
      } else {
        assert e[1..] == EscapeCaption(s[1..]);
        if |e| >= 2 {
          EscapeStart(s[1..]);
          assert e[..2][0] == e[0] && e[..2][1] == e[1];
          assert LF[0] == '\\' && LF[1] == 'n';
        }
      }
    }
  }

  /** The first character of a replacement is the new one or the old one. */
  lemma ReplaceStart(x: string, p: string, c: char)
    requires p != "" && x != ""
    ensures Replace(x, p, c) != "" && Replace(x, p, c)[0] in {c, x[0]}
  {
  }

  lemma StartsLF(x: string)
    ensures OccursAt(x, LF, 0) <==> |x| >= 2 && x[0] == '\\' && x[1] == 'n'
  {
    OccursAtChars(x, LF, 0);
    assert LF[0] == '\\' && LF[1] == 'n';
  }

  lemma StartsCRLF(x: string)
    ensures OccursAt(x, CRLF, 0) <==> |x| >= 4 && x[0] == '\\' && x[1] == 'r' && OccursAt(x[2..], LF, 0)
  {
    OccursAtChars(x, CRLF, 0);
    assert CRLF[0] == '\\' && CRLF[1] == 'r' && CRLF[2] == '\\' && CRLF[3] == 'n';
    if |x| >= 4 { StartsLF(x[2..]); }
  }

  /** Nothing escaped is left after unescaping. */
  lemma {:induction false} NoneLeft(x: string)
    ensures !Contains(Replace(x, LF, '\n'), LF)
  {
    var r := Replace(x, LF, '\n');
    if |x| >= 2 {
      var rest := if x[..2] == LF then x[2..] else x[1..];
      NoneLeft(rest);
      ContainsSplit(r, LF);
      assert r[1..] == Replace(rest, LF, '\n');
      StartsLF(r);
      StartsLF(x);
      if rest != "" { ReplaceStart(rest, LF, '\n'); }
    }
  }

  /** What the two replacements do to the first characters of a string. */
  lemma UnescapeSteps(x: string)
    ensures OccursAt(x, CRLF, 0) ==>
              UnescapeCaption(x) == "\n" + UnescapeCaption(x[4..]) &&
              Replace(x, LF, '\n') == "\\r\n" + Replace(x[4..], LF, '\n')
    ensures OccursAt(x, LF, 0) ==>
              UnescapeCaption(x) == "\n" + UnescapeCaption(x[2..]) &&
              Replace(x, LF, '\n') == "\n" + Replace(x[2..], LF, '\n')
    ensures x != "" && !OccursAt(x, CRLF, 0) && !OccursAt(x, LF, 0) ==>
              UnescapeCaption(x) == [x[0]] + UnescapeCaption(x[1..]) &&
              Replace(x, LF, '\n') == [x[0]] + Replace(x[1..], LF, '\n')
  {
    StartsCRLF(x);
    StartsLF(x);
    if OccursAt(x, CRLF, 0) {
      StartsLF(x[2..]);
      StepReplaced(x);
    } else if OccursAt(x, LF, 0) {
      StepEscaped(x);
    } else if x != "" {
      StepKept(x);
    }
  }

  lemma LFPlain(x: string)
    requires x != "" && !OccursAt(x, LF, 0)
    ensures Replace(x, LF, '\n') == [x[0]] + Replace(x[1..], LF, '\n')
  {
    if |x| < 2 { assert x == [x[0]] + x[1..]; }
  }

  lemma LFFound(x: string)
    requires OccursAt(x, LF, 0)
    ensures Replace(x, LF, '\n') == "\n" + Replace(x[2..], LF, '\n')
  {
  }

  lemma CRLFPlain(x: string)
    requires x != "" && !OccursAt(x, CRLF, 0)
    ensures Replace(x, CRLF, '\n') == [x[0]] + Replace(x[1..], CRLF, '\n')
  {
    if |x| < 4 { assert x == [x[0]] + x[1..]; }
  }

  lemma StepReplaced(x: string)
    requires OccursAt(x, CRLF, 0) && |x| >= 4 && OccursAt(x[2..], LF, 0) && x[0] == '\\' && x[1] == 'r'
    ensures UnescapeCaption(x) == "\n" + UnescapeCaption(x[4..])
    ensures Replace(x, LF, '\n') == "\\r\n" + Replace(x[4..], LF, '\n')
  {
    hide Replace;
    var y := Replace(x[4..], CRLF, '\n');
    CRLFFound(x);
    StartsLF("\n" + y);
    LFPlain("\n" + y);
    assert ("\n" + y)[1..] == y;
    BehindCR(x);
  }

  lemma CRLFFound(x: string)
    requires OccursAt(x, CRLF, 0)
    ensures Replace(x, CRLF, '\n') == "\n" + Replace(x[4..], CRLF, '\n')
  {
  }

  lemma BehindCR(x: string)
    requires |x| >= 4 && x[0] == '\\' && x[1] == 'r' && OccursAt(x[2..], LF, 0)
    ensures Replace(x, LF, '\n') == "\\r\n" + Replace(x[4..], LF, '\n')
  {
    hide Replace;
    StartsLF(x);
    LFPlain(x);
    StartsLF(x[1..]);
    LFPlain(x[1..]);
    assert x[1..][1..] == x[2..] && x[2..][2..] == x[4..];
    LFFound(x[2..]);
  }

  lemma StepEscaped(x: string)
    requires OccursAt(x, LF, 0) && |x| >= 2 && x[0] == '\\' && x[1] == 'n'
    ensures UnescapeCaption(x) == "\n" + UnescapeCaption(x[2..])
    ensures Replace(x, LF, '\n') == "\n" + Replace(x[2..], LF, '\n')
  {
    hide Replace;
    var y := Replace(x[2..], CRLF, '\n');
    assert Replace(x, CRLF, '\n') == LF + y by {
      StartsCRLF(x);
      CRLFPlain(x);
      StartsCRLF(x[1..]);
      CRLFPlain(x[1..]);
      assert x[1..][1..] == x[2..];
      assert ['\\'] + (['n'] + y) == LF + y;
    }
    StartsLF(LF + y);
    LFFound(LF + y);
    assert (LF + y)[2..] == y;
    LFFound(x);
  }

  lemma StepKept(x: string)
    requires x != "" && !OccursAt(x, CRLF, 0) && !OccursAt(x, LF, 0)
    ensures UnescapeCaption(x) == [x[0]] + UnescapeCaption(x[1..])
    ensures Replace(x, LF, '\n') == [x[0]] + Replace(x[1..], LF, '\n')
  {
    CRLFPlain(x);
    var y := Replace(x[1..], CRLF, '\n');
    StartsLF(x);
    StartsLF([x[0]] + y);
    if x[1..] != "" { ReplaceStart(x[1..], CRLF, '\n'); }
    LFPlain([x[0]] + y);
    assert ([x[0]] + y)[1..] == y;
    LFPlain(x);
  }

  /** The first replacement can only shorten what the second alone would give. */
  lemma {:induction false} CRLFShortens(x: string)
    ensures |UnescapeCaption(x)| <= |Replace(x, LF, '\n')|
    ensures Contains(x, CRLF) ==> |UnescapeCaption(x)| < |Replace(x, LF, '\n')|
    ensures !Contains(x, CRLF) ==> UnescapeCaption(x) == Replace(x, LF, '\n')
    decreases |x|
  {
    hide UnescapeCaption, Replace;
    UnescapeSteps(x);
    if x == "" {
      UnescapeEmpty();
    } else {
      ContainsSplit(x, CRLF);
      if OccursAt(x, CRLF, 0) {
        CRLFShortens(x[4..]);
      } else if OccursAt(x, LF, 0) {
        StartsLF(x);
        ContainsSplit(x[1..], CRLF);
        StartsCRLF(x[1..]);
        assert x[1..][1..] == x[2..];
        CRLFShortens(x[2..]);
      } else {
        CRLFShortens(x[1..]);
      }
    }
  }

  lemma UnescapeEmpty()
    ensures UnescapeCaption("") == "" && Replace("", LF, '\n') == "" && !Contains("", CRLF)
  {
  }

  /** Escaping makes backslash-r-backslash-n exactly out of backslash, r, line break. */
  lemma {:induction false} EscapedCRLF(s: string)
    requires !Contains(s, LF)
    ensures Contains(EscapeCaption(s), CRLF) <==> Contains(s, BROKEN_CR)
    decreases |s|
  {
    if s != "" {
      var e := EscapeCaption(s);
      ContainsSplit(s, LF);
      ContainsSplit(s, BROKEN_CR);
      ContainsSplit(e, CRLF);
      EscapedCRLF(s[1..]);
      EscapedAtStart(s);
      if s[0] == '\n' {
        assert e[1..][0] == 'n' && e[1..][1..] == EscapeCaption(s[1..]);
        ContainsSplit(e[1..], CRLF);
        StartsCRLF(e[1..]);
      } else {
        assert e[1..] == EscapeCaption(s[1..]);
      }
    }
  }

  lemma EscapedAtStart(s: string)
    requires s != "" && !Contains(s, LF)
    ensures OccursAt(EscapeCaption(s), CRLF, 0) <==> OccursAt(s, BROKEN_CR, 0)
  {
    var e := EscapeCaption(s);
    StartsCRLF(e);
    OccursAtChars(s, BROKEN_CR, 0);
    assert BROKEN_CR[0] == '\\' && BROKEN_CR[1] == 'r' && BROKEN_CR[2] == '\n';
    ContainsSplit(s, LF);
    if |s| >= 2 && s[0] == '\\' && s[1] == 'r' {
      ContainsSplit(s[1..], LF);
      assert s[1..][1..] == s[2..];
      assert e == "\\r" + EscapeCaption(s[2..]);
      assert e[2..] == EscapeCaption(s[2..]);
      EscapedLFAtStart(s[2..]);
    } else if |s| >= 2 && s[0] != '\n' {
      EscapeStart(s[1..]);
      assert e[1] == EscapeCaption(s[1..])[0];
    }
  }

  lemma EscapedLFAtStart(s: string)
    requires !Contains(s, LF)
    ensures OccursAt(EscapeCaption(s), LF, 0) <==> s != "" && s[0] == '\n'
  {
    var e := EscapeCaption(s);
    StartsLF(e);
    if s != "" && s[0] != '\n' && |e| >= 2 {
      ContainsSplit(s, LF);
      StartsLF(s);
      EscapeStart(s[1..]);
      assert e[1] == EscapeCaption(s[1..])[0];
    }
  }

  /** A caption survives being stored and read exactly when it contains neither a literal
      backslash-n nor a backslash, r, line break. */
  lemma EscapeRoundTrip(s: string)
    ensures UnescapeCaption(EscapeCaption(s)) == s <==> !Contains(s, LF) && !Contains(s, BROKEN_CR)
  {
    var e := EscapeCaption(s);
    if Contains(s, LF) {
      NoneLeft(Replace(e, CRLF, '\n'));
    } else {
      UnescapeLF(s);
      EscapedCRLF(s);
      CRLFShortens(e);
    }
  }

  // ----- Storing and reading one button -----

  /** A button's caption and command survive being stored and read. */
  lemma StoredLeftIsRead(c: Config, any: Config)
    requires c.caption != "" && '|' !in c.caption && Trimmed(EscapeCaption(c.caption))
    requires !Contains(c.caption, LF) && !Contains(c.caption, BROKEN_CR)
    requires c.command != "" && Trimmed(c.command)
    ensures ParseLeft(PrintLeft(c), any) == any.(caption := c.caption, command := c.command)
  {
    var e := EscapeCaption(c.caption);
    NoBar(c.caption);
    BarAt(e, c.command);
    EscapeRoundTrip(c.caption);
    TrimOfTrimmed(e);
    TrimOfTrimmed(c.command);
  }

  lemma {:induction false} NoBar(s: string)
    requires '|' !in s
    ensures '|' !in EscapeCaption(s)
  {
    if s != "" {
      assert s == [s[0]] + s[1..];
      NoBar(s[1..]);
      assert '|' !in LF by { assert LF == ['\\', 'n']; }
    }
  }

  lemma BarAt(e: string, command: string)
    requires '|' !in e
    ensures var v := e + "|" + command; IndexOf(v, "|", 0) == |e| && v[..|e|] == e && v[|e| + 1..] == command
  {
    var v := e + "|" + command;
    forall i | 0 <= i <= |e| ensures OccursAt(v, "|", i) <==> i == |e| { OccursAtChar(v, '|', i); }
    IndexOfIs(v, "|", 0, |e|);
  }

  /** A right-click caption that makes the stored value look like a command without caption. */
  predicate LooksLikeCommand(escaped: string) {
    StartsWithIgnoreCase(escaped, "SEND=") || EqualsIgnoreCase(escaped, "SIGNAL")
  }

  lemma FoldedAt(s: string, p: string, i: nat)
    requires StartsWithIgnoreCase(s, p) && i < |p|
    ensures LowerChar(s[i]) == LowerChar(p[i])
  {
    assert Lower(s[..|p|])[i] == Lower(p)[i];
  }

  lemma StartsSend(e: string, command: string)
    requires '|' !in e
    ensures StartsWithIgnoreCase(e + "|" + command, "SEND=") <==> StartsWithIgnoreCase(e, "SEND=")
  {
    var v := e + "|" + command;
    assert v[|e|] == '|';
    if |e| >= 5 {
      assert v[..5] == e[..5];
    } else if StartsWithIgnoreCase(v, "SEND=") {
      FoldedAt(v, "SEND=", |e|);
    }
  }

  lemma StartsSignal(e: string, command: string)
    requires '|' !in e
    ensures StartsWithIgnoreCase(e + "|" + command, "SIGNAL|") <==> EqualsIgnoreCase(e, "SIGNAL")
  {
    var v := e + "|" + command;
    assert v[|e|] == '|';
    assert "SIGNAL|" == "SIGNAL" + "|" && "SIGNAL|"[6] == '|';
    LowerConcat("SIGNAL", "|");
    if |e| == 6 {
      assert v[..7] == e + "|";
      LowerConcat(e, "|");
      assert Lower(v[..7])[..6] == Lower(e) && Lower("SIGNAL|")[..6] == Lower("SIGNAL");
    } else {
      assert |Lower(e)| != |Lower("SIGNAL")|;
      if StartsWithIgnoreCase(v, "SIGNAL|") {
        FoldedAt(v, "SIGNAL|", if |e| < 6 then |e| else 6);
      }
    }
  }

  /** A right-click caption and command survive exactly when the caption is not taken for a command; a
      cleared function survives as well. */
  lemma StoredRightIsRead(c: Config, any: Config)
    requires c.rightCommand == "" ==> c.rightCaption == ""
    requires c.rightCommand != "" ==>
               && c.rightCaption != "" && '|' !in c.rightCaption && Trimmed(EscapeCaption(c.rightCaption))
               && !Contains(c.rightCaption, LF) && !Contains(c.rightCaption, BROKEN_CR)
               && Trimmed(c.rightCommand)
    ensures ParseRight(PersistedRight(c), any) == any.(rightCaption := c.rightCaption, rightCommand := c.rightCommand)
       <==> (c.rightCommand != "" ==> !LooksLikeCommand(EscapeCaption(c.rightCaption)))
  {
    if c.rightCommand == "" {
      NoneClears(any);
    } else {
      FullRightIsRead(c, any);
    }
  }

  lemma NoneClears(any: Config)
    ensures ParseRight("none", any) == any.(rightCaption := "", rightCommand := "")
  {
    TrimOfTrimmed("none");
    FoldedToItself("none");
  }

  lemma FullRightIsRead(c: Config, any: Config)
    requires c.rightCaption != "" && '|' !in c.rightCaption && Trimmed(EscapeCaption(c.rightCaption))
    requires !Contains(c.rightCaption, LF) && !Contains(c.rightCaption, BROKEN_CR)
    requires c.rightCommand != "" && Trimmed(c.rightCommand)
    ensures ParseRight(PrintRight(c), any) == any.(rightCaption := c.rightCaption, rightCommand := c.rightCommand)
       <==> !LooksLikeCommand(EscapeCaption(c.rightCaption))
  {
    hide Replace, UnescapeCaption;
    var e := EscapeCaption(c.rightCaption);
    var v := PrintRight(c);
    EscapeStart(c.rightCaption);
    NoBar(c.rightCaption);
    BarAt(e, c.rightCommand);
    EscapeRoundTrip(c.rightCaption);
    TrimOfTrimmed(e);
    TrimOfTrimmed(c.rightCommand);
    TrimOfTrimmed(v) by { assert v[0] == e[0] && v[|v| - 1] == c.rightCommand[|c.rightCommand| - 1]; }
    NotNone(e, c.rightCommand);
    StartsSend(e, c.rightCommand);
    StartsSignal(e, c.rightCommand);
  }

  lemma NotNone(e: string, command: string)
    ensures !EqualsIgnoreCase(e + "|" + command, "none")
  {
    var v := e + "|" + command;
    assert v[|e|] == '|' && Lower(v)[|e|] == '|';
    assert '|' !in Lower("none");
    assert Lower(v)[|e|] in Lower(v);
  }

  // ----- What any stored value means -----

  /** The text is cut at its first bar. */
  ghost predicate CutAtBar(text: string, a: string, b: string) {
    text == a + "|" + b && '|' !in a
  }

  predicate SaysNone(t: string) { t == "" || EqualsIgnoreCase(t, "none") }

  /** Written before captions were stored: the command alone. */
  predicate Legacy(t: string) {
    (|t| >= 5 && Lower(t[..5]) == Lower("SEND=")) || (|t| >= 7 && Lower(t[..7]) == Lower("SIGNAL|"))
  }

  /** What a stored right-click value, its white space trimmed, makes of a button. */
  ghost predicate RightAnswer(t: string, before: Config, after: Config) {
    && (SaysNone(t) ==> after.rightCommand == "" && after.rightCaption == "")
    && (Legacy(t) ==>
          after.rightCommand == t &&
          after.rightCaption ==
            if Lower(t) == Lower(before.rightCommand) && before.rightCaption != "" then before.rightCaption else t)
    && (!SaysNone(t) && !Legacy(t) && '|' !in t ==>
          after.rightCommand == t && after.rightCaption == if UnescapeCaption(t) != "" then UnescapeCaption(t) else t)
    && (forall a, b :: CutAtBar(t, a, b) && !Legacy(t) ==>
          after.rightCommand == Trim(b) &&
          after.rightCaption == if Trim(b) == "" then ""
                                else if UnescapeCaption(Trim(a)) != "" then UnescapeCaption(Trim(a)) else Trim(b))
  }

  /** What a stored left value makes of a button: an empty part keeps what was there. */
  ghost predicate LeftAnswer(value: string, before: Config, after: Config) {
    && ('|' !in value ==>
          after.command == before.command &&
          after.caption == if UnescapeCaption(Trim(value)) != "" then UnescapeCaption(Trim(value)) else before.caption)
    && (forall a, b :: CutAtBar(value, a, b) ==>
          after.command == (if Trim(b) != "" then Trim(b) else before.command) &&
          after.caption == if UnescapeCaption(Trim(a)) != "" then UnescapeCaption(Trim(a)) else before.caption)
  }

  lemma NoBarFound(s: string)
    requires '|' !in s
    ensures IndexOf(s, "|", 0) == -1
  {
    if IndexOf(s, "|", 0) >= 0 { OccursAtChar(s, '|', IndexOf(s, "|", 0)); }
  }

  lemma LeftIsAnswered(value: string, c: Config)
    ensures LeftAnswer(value, c, ParseLeft(value, c))
  {
    hide Trim, UnescapeCaption, IndexOf;
    if '|' !in value { NoBarFound(value); TrimOfTrimmed(""); UnescapeEmpty(); }
    forall a, b | CutAtBar(value, a, b)
      ensures IndexOf(value, "|", 0) == |a| && value[..|a|] == a && value[|a| + 1..] == b
    {
      BarAt(a, b);
    }
  }

  lemma LegacyIsCommandOnly(t: string)
    ensures Legacy(t) <==> CommandOnly(t)
  {
  }

  lemma LegacyIsNotNone(t: string)
    ensures Legacy(t) ==> !SaysNone(t)
  {
    assert |Lower(t)| == |t| && |Lower("none")| == 4;
  }

  lemma RightAtBar(value: string, c: Config, a: string, b: string)
    requires CutAtBar(Trim(value), a, b) && !Legacy(Trim(value))
    ensures !SaysNone(Trim(value))
    ensures var command, caption := Trim(b), UnescapeCaption(Trim(a));
            ParseRight(value, c) == c.(rightCommand := command,
                                       rightCaption := if command == "" then "" else if caption != "" then caption
                                                       else command)
  {
    var t := Trim(value);
    LegacyIsCommandOnly(t);
    BarAt(a, b);
    NotNone(a, b);
    hide Trim, UnescapeCaption, IndexOf, Legacy, CommandOnly;
  }

  lemma RightWithoutBar(value: string, c: Config)
    requires var t := Trim(value); !SaysNone(t) && !Legacy(t) && '|' !in t
    ensures var t := Trim(value);
            ParseRight(value, c) == c.(rightCommand := t,
                                       rightCaption := if UnescapeCaption(t) != "" then UnescapeCaption(t) else t)
  {
    var t := Trim(value);
    LegacyIsCommandOnly(t);
    NoBarFound(t);
    var x, y := TrimShape(value);
    TrimOfTrimmed(t);
    hide Trim, UnescapeCaption, IndexOf, Legacy, CommandOnly;
  }

  lemma RightIsAnswered(value: string, c: Config)
    ensures RightAnswer(Trim(value), c, ParseRight(value, c))
  {
    var t := Trim(value);
    LegacyIsCommandOnly(t);
    LegacyIsNotNone(t);
    hide Trim, UnescapeCaption, IndexOf, Legacy, CommandOnly, Replace;
    if SaysNone(t) || Legacy(t) {
      forall a, b | CutAtBar(t, a, b) ensures !SaysNone(t) { NotNone(a, b); }
    } else {
      hide ParseRight, CutAtBar;
      if '|' !in t { RightWithoutBar(value, c); }
      forall a, b | CutAtBar(t, a, b)
        ensures var command, caption := Trim(b), UnescapeCaption(Trim(a));
                ParseRight(value, c) == c.(rightCommand := command,
                                           rightCaption := if command == "" then "" else if caption != "" then caption
                                                           else command)
      {
        RightAtBar(value, c, a, b);
      }
    }
  }

  /** One button loaded, for every stored text: what its configuration becomes, and what is written back. */
  lemma LoadedButton(slot: Slot, c: Config, canPersist: bool)
    ensures var (stored, after) := LoadOne(slot, c, canPersist);
            && (!Blank(Read(slot.left)) ==> LeftAnswer(Read(slot.left), c, after) && stored.left == slot.left)
            && (!Blank(Read(slot.right)) ==>
                  RightAnswer(Trim(Read(slot.right)), c, after) && stored.right == slot.right)
            && (Blank(Read(slot.right)) && c.rightCommand == "" ==>
                  after.rightCommand == "" && after.rightCaption == "" && stored.right == slot.right)
            && (!canPersist ==> stored == slot)
            && (canPersist && Blank(Read(slot.left)) ==> stored.left == EscapeCaption(c.caption) + "|" + c.command)
            && (canPersist && Blank(Read(slot.right)) && c.rightCommand != "" ==>
                  stored.right == EscapeCaption(c.rightCaption) + "|" + c.rightCommand)
  {
    hide ParseLeft, ParseRight, EscapeCaption, Trim, RightAnswer, LeftAnswer;
    var left := if Blank(Read(slot.left)) then PrintLeft(c) else Read(slot.left);
    var c1 := ParseLeft(left, c);
    var useDefault := Blank(Read(slot.right)) && c1.rightCommand != "";
    var right := if useDefault then PrintRight(c1) else Read(slot.right);
    ParseLeftTwice(left, c);
    ParseRightTwice(right, c1);
    LeftIsAnswered(left, c);
    RightIsAnswered(right, c1);
    AnswersIgnoreRest(left, Trim(right), c, c1, ParseRight(right, c1));
    if Blank(right) { BlankClears(right, c1); }
  }

  /** Each answer looks at its own part of the button. */
  lemma AnswersIgnoreRest(value: string, t: string, before: Config, c1: Config, after: Config)
    requires c1.rightCaption == before.rightCaption && c1.rightCommand == before.rightCommand
    requires after.caption == c1.caption && after.command == c1.command
    ensures LeftAnswer(value, before, c1) ==> LeftAnswer(value, before, after)
    ensures RightAnswer(t, c1, after) ==> RightAnswer(t, before, after)
  {
  }

  // ----- Loading twice -----

  /** What the loop writes fits the buffer it is read back through. */
  predicate DefaultsFit(slot: Slot, c: Config) {
    (Blank(Read(slot.left)) ==> |PrintLeft(c)| <= BUFFER) &&
    (Blank(Read(slot.right)) ==> |PrintRight(c)| <= BUFFER)
  }

  lemma {:induction false} TrimEndKeeps(s: string)
    requires s != "" && !IsWhite(s[0])
    ensures TrimEnd(s) != ""
  {
    if IsWhite(s[|s| - 1]) { TrimEndKeeps(s[..|s| - 1]); }
  }

  lemma {:induction false} NotBlankAt(s: string, i: nat)
    requires i < |s| && !IsWhite(s[i])
    ensures !Blank(s)
  {
    if IsWhite(s[0]) {
      NotBlankAt(s[1..], i - 1);
    } else {
      TrimEndKeeps(s);
    }
  }

  lemma BarNotBlank(a: string, b: string)
    ensures !Blank(a + "|" + b)
  {
    NotBlankAt(a + "|" + b, |a|);
  }

  lemma ParseLeftTwice(value: string, c: Config)
    ensures ParseLeft(value, ParseLeft(value, c)) == ParseLeft(value, c)
    ensures ParseLeft(value, c).rightCaption == c.rightCaption && ParseLeft(value, c).rightCommand == c.rightCommand
  {
  }

  /** Reading a right-click value again changes nothing, legacy command-only values included. */
  lemma ParseRightTwice(value: string, c: Config)
    ensures ParseRight(value, ParseRight(value, c)) == ParseRight(value, c)
    ensures ParseRight(value, c).caption == c.caption && ParseRight(value, c).command == c.command
  {
    hide Trim, UnescapeCaption, IndexOf, EqualsIgnoreCase;
    FoldedToItself(Trim(value));
  }

  lemma FoldedToItself(s: string)
    ensures EqualsIgnoreCase(s, s)
  {
  }

  /** Reading a left value and a right value touch different parts of the configuration. */
  lemma LeftAndRightCommute(left: string, right: string, c: Config)
    ensures ParseRight(right, ParseLeft(left, c)).(caption := c.caption, command := c.command) == ParseRight(right, c)
    ensures ParseLeft(left, ParseRight(right, ParseLeft(left, c))) == ParseRight(right, ParseLeft(left, c))
  {
    hide Trim, UnescapeCaption, IndexOf, EqualsIgnoreCase;
  }

  /** One button loaded again: the same store and the same configuration, both when the program
      goes on with what it has and when it starts anew with the defaults. */
  lemma LoadOneTwice(slot: Slot, c: Config)
    requires DefaultsFit(slot, c)
    ensures var once := LoadOne(slot, c, true);
            LoadOne(once.0, once.1, true) == once && LoadOne(once.0, c, true) == once
  {
    hide ParseLeft, ParseRight, Blank, EscapeCaption;
    var left := if Blank(Read(slot.left)) then PrintLeft(c) else Read(slot.left);
    var c1 := ParseLeft(left, c);
    ParseLeftTwice(left, c);
    BarNotBlank(EscapeCaption(c.caption), c.command);
    BarNotBlank(EscapeCaption(c.rightCaption), c.rightCommand);
    assert PrintRight(c1) == PrintRight(c);
    var useDefault := Blank(Read(slot.right)) && c1.rightCommand != "";
    var right := if useDefault then PrintRight(c1) else Read(slot.right);
    ParseRightTwice(right, c1);
    LeftAndRightCommute(left, right, c);
    if Blank(Read(slot.right)) && !useDefault { BlankClears(right, c1); }
  }

  lemma BlankClears(value: string, c: Config)
    requires Blank(value)
    ensures ParseRight(value, c).rightCommand == "" && ParseRight(value, c).rightCaption == ""
  {
  }

  lemma LegacyNotBlank(value: string)
    ensures LegacyDefault(value) ==> !Blank(value)
    ensures !LegacyDefault("none")
  {
    TrimOfTrimmed("none");
    assert |Lower("none")| == 4;
    assert |Lower("SIGNAL|BORDERLESS_FS")| > 4 && |Lower("Borderless Fullscreen|SIGNAL|BORDERLESS_FS")| > 4;
    assert |Lower(Trim(value))| == |Trim(value)|;
  }

  /** After loading, the right value reads as the default just written, or as before. */
  lemma RightAfter(slot: Slot, c: Config)
    requires DefaultsFit(slot, c)
    ensures var right := LoadOne(slot, c, true).0.right;
            Read(right) == (if Blank(Read(slot.right)) && c.rightCommand != "" then PrintRight(c)
                            else Read(slot.right)) &&
            (Blank(Read(right)) <==> Blank(Read(slot.right)) && c.rightCommand == "")
  {
    hide ParseLeft, ParseRight, Blank, EscapeCaption;
    var left := if Blank(Read(slot.left)) then PrintLeft(c) else Read(slot.left);
    ParseLeftTwice(left, c);
    BarNotBlank(EscapeCaption(c.rightCaption), c.rightCommand);
    assert PrintRight(ParseLeft(left, c)) == PrintRight(c);
  }

  /** A default of button 14 that the migration takes for the old one, while button 11 has no default. */
  predicate MigratesLater(store: seq<Slot>, configs: seq<Config>)
    requires |store| == |configs| > OLD_BUTTON
  {
    && Blank(Read(store[NEW_BUTTON].right)) && configs[NEW_BUTTON].rightCommand == ""
    && Blank(Read(store[OLD_BUTTON].right)) && configs[OLD_BUTTON].rightCommand != ""
    && LegacyDefault(PrintRight(configs[OLD_BUTTON]))
  }

  predicate AllFit(store: seq<Slot>, configs: seq<Config>)
    requires |store| == |configs| > OLD_BUTTON
  {
    forall i :: 0 <= i < |store| ==> DefaultsFit(Migrate(store)[i], configs[i])
  }

  lemma SecondMigration(store: seq<Slot>, configs: seq<Config>)
    requires |store| == |configs| > OLD_BUTTON && AllFit(store, configs)
    ensures Migrates(Load(store, configs, true).0) <==> MigratesLater(store, configs)
  {
    hide LoadOne, Blank, LegacyDefault, DefaultsFit, EscapeCaption;
    var m := Migrate(store);
    assert DefaultsFit(m[NEW_BUTTON], configs[NEW_BUTTON]) && DefaultsFit(m[OLD_BUTTON], configs[OLD_BUTTON]);
    RightAfter(m[NEW_BUTTON], configs[NEW_BUTTON]);
    RightAfter(m[OLD_BUTTON], configs[OLD_BUTTON]);
    LegacyNotBlank(Read(store[OLD_BUTTON].right));
    if Migrates(store) { MovedNotBlank(Read(store[OLD_BUTTON].right)); }
  }

  lemma MovedNotBlank(value: string)
    requires LegacyDefault(value) && |value| <= BUFFER
    ensures !Blank(Read(Trim(value)))
  {
    LegacyNotBlank(value);
    var a, b := TrimShape(value);
    TrimOfTrimmed(Trim(value));
  }

  /** Loading is idempotent, store and configurations alike, exactly when no second migration is
      set up by the defaults. */
  lemma LoadTwice(store: seq<Slot>, configs: seq<Config>)
    requires |store| == |configs| > OLD_BUTTON && AllFit(store, configs)
    ensures var once := Load(store, configs, true);
            Load(once.0, once.1, true) == once <==> !MigratesLater(store, configs)
  {
    hide LoadOne, LegacyDefault, Blank, DefaultsFit, MigratesLater;
    var once := Load(store, configs, true);
    SecondMigration(store, configs);
    if Migrates(once.0) {
      NoneStays(once.0, once.1);
    } else {
      Unmigrated(store, configs);
    }
  }

  lemma Unmigrated(store: seq<Slot>, configs: seq<Config>)
    requires |store| == |configs| > OLD_BUTTON && AllFit(store, configs)
    requires !Migrates(Load(store, configs, true).0)
    ensures var once := Load(store, configs, true);
            Load(once.0, once.1, true) == once && Load(once.0, configs, true) == once
  {
    hide LoadOne, LegacyDefault, Blank, DefaultsFit;
    var m, once := Migrate(store), Load(store, configs, true);
    forall i | 0 <= i < |store|
      ensures LoadOne(once.0[i], once.1[i], true) == (once.0[i], once.1[i])
      ensures LoadOne(once.0[i], configs[i], true) == (once.0[i], once.1[i])
    {
      assert DefaultsFit(m[i], configs[i]);
      LoadOneTwice(m[i], configs[i]);
    }
    var again, restart := Load(once.0, once.1, true), Load(once.0, configs, true);
    assert again.0 == once.0 && again.1 == once.1 && restart.0 == once.0 && restart.1 == once.1;
  }

  /** A migration really changes the store: button 14 then holds "none". */
  lemma NoneStays(store: seq<Slot>, configs: seq<Config>)
    requires |store| == |configs| > OLD_BUTTON && Migrates(store)
    ensures Load(store, configs, true).0[OLD_BUTTON].right == "none" != store[OLD_BUTTON].right
  {
    hide ParseLeft, ParseRight, LegacyDefault;
    TrimOfTrimmed("none");
    LegacyNotBlank(Read(store[OLD_BUTTON].right));
    assert Migrate(store)[OLD_BUTTON].right == "none";
    assert Read("none") == "none" && !Blank("none");
  }

  /** A restart, which begins with the defaults again, finds what the previous start left. */
  lemma RestartKeeps(store: seq<Slot>, configs: seq<Config>)
    requires |store| == |configs| > OLD_BUTTON && AllFit(store, configs) && !MigratesLater(store, configs)
    ensures var once := Load(store, configs, true); Load(once.0, configs, true) == once
  {
    hide MigratesLater, AllFit, Load;
    SecondMigration(store, configs);
    Unmigrated(store, configs);
  }

  // ----- What the program writes -----

  const BUTTONS := 15

  /** The caption of a button with a shortcut has a second line. */
  function Labelled(o: CommandOption): string {
    if |o.shortcut| > 0 then o.name + "\n(" + o.shortcut + ")" else o.name
  }

  function DefaultConfig(b: DefaultButton): Config {
    match b.right
    case None => Config(Labelled(b.left), b.left.command, "", "")
    case Some(r) => Config(Labelled(b.left), b.left.command, r.name, r.command)
  }

  function ConfigsOf(buttons: seq<DefaultButton>): (r: seq<Config>)
    ensures |r| == |buttons| && forall i :: 0 <= i < |r| ==> r[i] == DefaultConfig(buttons[i])
  {
    if buttons == [] then [] else ConfigsOf(buttons[..|buttons| - 1]) + [DefaultConfig(buttons[|buttons| - 1])]
  }

  /** BuildDefaultCommandButtonConfigs */
  const DEFAULTS: seq<Config> := ConfigsOf(DEFAULT_BUTTONS)

  lemma DefaultsCount()
    ensures |DEFAULTS| == BUTTONS && DEFAULTS[NEW_BUTTON].rightCommand != ""
    ensures forall i :: 0 <= i < BUTTONS ==> DEFAULTS[i] == DefaultConfig(DEFAULT_BUTTONS[i])
  {
    assert |DEFAULTS_1| == 3 && |DEFAULTS_2| == 4 && |DEFAULTS_3| == 3 && |DEFAULTS_4| == 1;
    assert DEFAULT_BUTTONS[NEW_BUTTON] == DEFAULTS_4[0];
  }

  function Assigned(c: Config, o: CommandOption, forRightClick: bool): Config {
    if forRightClick then c.(rightCaption := o.name, rightCommand := o.command)
    else c.(caption := Labelled(o), command := o.command)
  }

  function Cleared(c: Config): Config { c.(rightCaption := "", rightCommand := "") }

  lemma {:induction false} EscapeConcat(a: string, b: string)
    ensures EscapeCaption(a + b) == EscapeCaption(a) + EscapeCaption(b)
  {
    if a == "" {
      assert a + b == b;
    } else {
      assert (a + b)[1..] == a[1..] + b;
      EscapeConcat(a[1..], b);
    }
  }

  lemma {:induction false} EscapePlain(s: string)
    requires Plain(s)
    ensures EscapeCaption(s) == s
  {
    if s != "" {
      assert s == [s[0]] + s[1..];
      EscapePlain(s[1..]);
    }
  }

  lemma EscapedLabel(o: CommandOption)
    ensures EscapeCaption(o.name) == o.name
    ensures EscapeCaption(Labelled(o)) == if |o.shortcut| > 0 then o.name + ("\\n(" + (o.shortcut + ")")) else o.name
  {
    EscapePlain(o.name);
    if |o.shortcut| > 0 {
      EscapePlain(o.shortcut);
      assert Labelled(o) == o.name + ("\n(" + (o.shortcut + ")"));
      EscapeConcat(o.name, "\n(" + (o.shortcut + ")"));
      EscapeConcat("\n(", o.shortcut + ")");
      EscapeConcat(o.shortcut, ")");
      assert EscapeCaption("\n(") == "\\n(" && EscapeCaption(")") == ")" by { EscapeBrackets(); }
    }
  }

  lemma EscapeBrackets()
    ensures EscapeCaption("\n(") == "\\n(" && EscapeCaption(")") == ")"
  {
    EscapePlain("(");
    EscapePlain(")");
    assert "\n("[1..] == "(";
  }

  lemma NoBackslash(s: string)
    requires '\\' !in s
    ensures !Contains(s, LF) && !Contains(s, BROKEN_CR)
  {
    forall i ensures !OccursAt(s, LF, i) && !OccursAt(s, BROKEN_CR, i) {
      OccursAtChars(s, LF, i);
      OccursAtChars(s, BROKEN_CR, i);
      assert LF[0] == '\\' && BROKEN_CR[0] == '\\';
    }
  }

  /** Every caption the program makes can be stored. */
  lemma LabelStorable(o: CommandOption)
    ensures Labelled(o) != "" && '|' !in Labelled(o) && '\\' !in Labelled(o)
    ensures Trimmed(EscapeCaption(Labelled(o))) && |EscapeCaption(Labelled(o))| <= 130
    ensures Trimmed(o.command) && !LooksLikeCommand(o.name)
  {
    hide EscapeCaption, LooksLikeCommand, IsWhite;
    EscapedLabel(o);
    NameIsNoCommand(o.name);
    PlainLabel(o);
    var e := EscapeCaption(Labelled(o));
    assert e[0] == o.name[0];
    assert !IsWhite(')') by { BracketNotWhite(); }
  }

  lemma BracketNotWhite()
    ensures !IsWhite(')')
  {
  }

  lemma PlainLabel(o: CommandOption)
    ensures '|' !in Labelled(o) && '\\' !in Labelled(o)
  {
    assert '|' !in "\n(" && '|' !in ")" && '\\' !in "\n(" && '\\' !in ")";
  }

  lemma NameIsNoCommand(name: Name)
    ensures !LooksLikeCommand(name)
  {
    if StartsWithIgnoreCase(name, "SEND=") { FoldedAt(name, "SEND=", 4); }
    assert |Lower(name)| != |Lower("SIGNAL")|;
  }

  // ----- What a load makes of the store -----

  /** The old default of button 14 is stored with it, and nothing with button 11. */
  predicate Moves(store: seq<Slot>)
    requires |store| > 13
  {
    var t := Trim(Read(store[13].right));
    Trim(Read(store[10].right)) == "" &&
    (Lower(t) == Lower("Borderless Fullscreen|SIGNAL|BORDERLESS_FS") || Lower(t) == Lower("SIGNAL|BORDERLESS_FS"))
  }

  /** Every stored text is answered as it stands, and left as it stands. */
  ghost predicate Answered(slot: Slot, before: Config, stored: Slot, after: Config) {
    && (!Blank(Read(slot.left)) ==> LeftAnswer(Read(slot.left), before, after) && stored.left == slot.left)
    && (!Blank(Read(slot.right)) ==>
          RightAnswer(Trim(Read(slot.right)), before, after) && stored.right == slot.right)
    && (Blank(Read(slot.right)) && before.rightCommand == "" ==>
          after.rightCommand == "" && after.rightCaption == "" && stored.right == slot.right)
  }

  lemma LoadAnswers(store: seq<Slot>, configs: seq<Config>, canPersist: bool, i: nat)
    requires |store| == |configs| > 13 && i < |store|
    requires canPersist && Moves(store) ==> i != 10 && i != 13
    ensures var after := Load(store, configs, canPersist);
            Answered(store[i], configs[i], after.0[i], after.1[i]) && (!canPersist ==> after.0[i] == store[i])
  {
    hide LoadOne, LeftAnswer, RightAnswer, Blank;
    MovesMigrates(store);
    LoadedButton(store[i], configs[i], canPersist);
  }

  lemma LoadWritesNothing(store: seq<Slot>, configs: seq<Config>)
    requires |store| == |configs| > 13
    ensures Load(store, configs, false).0 == store
  {
    hide ParseLeft, ParseRight, EscapeCaption, Blank;
    var after := Load(store, configs, false);
    forall i | 0 <= i < |store| ensures after.0[i] == store[i] {}
  }

  lemma MovesMigrates(store: seq<Slot>)
    requires |store| > 13
    ensures Moves(store) <==> Migrates(store)
  {
  }

  /** The old default goes to button 11 and is answered there; button 14 has no right-click function any more. */
  lemma MoveAnswers(store: seq<Slot>, configs: seq<Config>)
    requires |store| == |configs| > 13 && Moves(store)
    ensures var t, after := Trim(Read(store[13].right)), Load(store, configs, true);
            RightAnswer(t, configs[10], after.1[10]) && after.0[10].right == t &&
            after.1[13].rightCommand == "" && after.1[13].rightCaption == "" && after.0[13].right == "none"
  {
    hide LoadOne, LeftAnswer, RightAnswer, Blank, LegacyDefault;
    var value := Read(store[13].right);
    var t := Trim(value);
    MovesMigrates(store);
    LegacyNotBlank(value);
    MovedNotBlank(value);
    var x, y := TrimShape(value);
    TrimOfTrimmed(t);
    TrimOfTrimmed("none");
    NotBlankAt("none", 0);
    FoldedToItself("none");
    var m := Migrate(store);
    LoadedButton(m[10], configs[10], true);
    LoadedButton(m[13], configs[13], true);
    assert m[10].right == t && Read(t) == t && m[13].right == "none";
    AnswerToNone(configs[13], LoadOne(m[13], configs[13], true).1);
  }

  lemma AnswerToNone(before: Config, after: Config)
    requires RightAnswer("none", before, after)
    ensures after.rightCommand == "" && after.rightCaption == ""
  {
  }

  /** From the shipped buttons, the old command of button 14 ends up with button 11 under its shipped caption. */
  lemma MovedCommandKeepsCaption(store: seq<Slot>)
    requires |store| == BUTTONS && Trim(Read(store[10].right)) == ""
    requires Lower(Trim(Read(store[13].right))) == Lower("SIGNAL|BORDERLESS_FS")
    ensures |DEFAULTS| == BUTTONS
    ensures var t, after := Trim(Read(store[13].right)), Load(store, DEFAULTS, true);
            after.1[10].rightCommand == t && after.1[10].rightCaption == "Borderless Fullscreen" &&
            after.1[13].rightCommand == ""
  {
    hide Load, LoadOne;
    DefaultsCount();
    assert Moves(store);
    MoveAnswers(store, DEFAULTS);
    var t := Trim(Read(store[13].right));
    assert Legacy(t) by { SignalIsLegacy(t); }
    assert DEFAULT_BUTTONS[10] == DEFAULTS_4[0];
    assert DEFAULTS[10].rightCommand == "SIGNAL|BORDERLESS_FS";
  }

  lemma SignalIsLegacy(t: string)
    requires Lower(t) == Lower("SIGNAL|BORDERLESS_FS")
    ensures Legacy(t)
  {
    var f := "SIGNAL|BORDERLESS_FS";
    assert |t| == |Lower(t)| == |Lower(f)| == |f| == 20;
    LowerSlice(t, 0, 7);
    LowerSlice(f, 0, 7);
    assert f[0..7] == "SIGNAL|" && t[0..7] == t[..7];
  }

  // ----- In step with a restart -----

  /** The store needs no migration, and loading any of its buttons from the shipped defaults gives back
      the stored values and the configuration in memory. */
  predicate InStep(store: seq<Slot>, configs: seq<Config>) {
    && |store| == |configs| == |DEFAULTS| == BUTTONS
    && !Migrates(store)
    && forall i :: 0 <= i < BUTTONS ==> LoadOne(store[i], DEFAULTS[i], true) == (store[i], configs[i])
  }

  lemma DefaultFits(b: DefaultButton)
    ensures var c := DefaultConfig(b);
            |PrintLeft(c)| <= BUFFER && (c.rightCommand != "" ==> |PrintRight(c)| <= BUFFER) && |c.rightCaption| <= 60
  {
    LabelStorable(b.left);
    if b.right.Some? { EscapedLabel(b.right.value); }
  }

  /** The shipped defaults fit the buffer and never set up a second migration. */
  lemma DefaultsAreSafe(store: seq<Slot>)
    requires |store| == BUTTONS
    ensures |DEFAULTS| == BUTTONS && AllFit(store, DEFAULTS) && !MigratesLater(store, DEFAULTS)
  {
    hide PrintLeft, PrintRight, Blank, Migrate;
    DefaultsCount();
    forall i | 0 <= i < BUTTONS ensures DefaultsFit(Migrate(store)[i], DEFAULTS[i]) {
      DefaultFits(DEFAULT_BUTTONS[i]);
      RightFits(DEFAULT_BUTTONS[i]);
    }
  }

  lemma RightFits(b: DefaultButton)
    ensures |PrintRight(DefaultConfig(b))| <= BUFFER
  {
    if b.right.Some? { EscapedLabel(b.right.value); }
  }

  /** With the shipped defaults, whatever is stored: a second load and a restart change nothing, and the
      configurations in memory are in step with the store. */
  lemma LoadedInStep(store: seq<Slot>)
    requires |store| == BUTTONS
    ensures |DEFAULTS| == BUTTONS
    ensures var once := Load(store, DEFAULTS, true);
            InStep(once.0, once.1) && Load(once.0, once.1, true) == once && Load(once.0, DEFAULTS, true) == once
  {
    hide LoadOne, MigratesLater, AllFit, Migrates;
    DefaultsAreSafe(store);
    SecondMigration(store, DEFAULTS);
    Unmigrated(store, DEFAULTS);
    var once := Load(store, DEFAULTS, true);
    var again := Load(once.0, DEFAULTS, true);
    assert Migrate(once.0) == once.0;
    forall i | 0 <= i < BUTTONS ensures LoadOne(once.0[i], DEFAULTS[i], true) == (once.0[i], once.1[i]) {
      assert again.0[i] == LoadOne(once.0[i], DEFAULTS[i], true).0 &&
        again.1[i] == LoadOne(once.0[i], DEFAULTS[i], true).1;
    }
  }

  function EmptyStore(n: nat): (r: seq<Slot>)
    ensures |r| == n && forall i :: 0 <= i < n ==> r[i] == Slot("", "")
  {
    if n == 0 then [] else EmptyStore(n - 1) + [Slot("", "")]
  }

  lemma FreshButton(b: DefaultButton, canPersist: bool)
    ensures LoadOne(Slot("", ""), DefaultConfig(b), canPersist).1 == DefaultConfig(b)
  {
    hide ParseLeft, ParseRight, EscapeCaption, Replace;
    var c := DefaultConfig(b);
    TrimEmpty();
    LabelStorable(b.left);
    NoBackslash(c.caption);
    StoredLeftIsRead(c, c);
    if b.right.Some? {
      PersistedIsRead(c, b.right.value);
      assert PersistedRight(c) == PrintRight(c);
    } else {
      BlankClears("", c);
      ParseRightTwice("", c);
    }
  }

  lemma TrimEmpty()
    ensures Trim("") == "" && Read("") == ""
  {
  }

  /** Without a file, or with an empty one, the buttons are the shipped ones. */
  lemma FreshStart(canPersist: bool)
    ensures |DEFAULTS| == BUTTONS && Load(EmptyStore(BUTTONS), DEFAULTS, canPersist).1 == DEFAULTS
  {
    hide LoadOne;
    DefaultsCount();
    var store := EmptyStore(BUTTONS);
    assert Migrate(store) == store by { TrimEmpty(); LegacyNotBlank(""); }
    var loaded := Load(store, DEFAULTS, canPersist);
    forall i | 0 <= i < BUTTONS ensures loaded.1[i] == DEFAULTS[i] { FreshButton(DEFAULT_BUTTONS[i], canPersist); }
  }

  /** Being in step means that a restart shows what was shown before. */
  lemma RestartReproduces(store: seq<Slot>, configs: seq<Config>)
    requires InStep(store, configs)
    ensures Load(store, DEFAULTS, true) == (store, configs)
  {
    hide LoadOne, Migrates;
    var again := Load(store, DEFAULTS, true);
    assert again.0 == store && again.1 == configs;
  }

  /** What a stored button that loads as itself looks like. */
  lemma SlotKept(slot: Slot, d: Config)
    requires LoadOne(slot, d, true).0 == slot && |PrintLeft(d)| <= BUFFER && |PrintRight(d)| <= BUFFER
    ensures !Blank(Read(slot.left)) && (d.rightCommand != "" ==> !Blank(Read(slot.right)))
  {
    hide ParseLeft, ParseRight, Blank, EscapeCaption;
    BarNotBlank(EscapeCaption(d.caption), d.command);
    BarNotBlank(EscapeCaption(d.rightCaption), d.rightCommand);
    var left := if Blank(Read(slot.left)) then PrintLeft(d) else Read(slot.left);
    ParseLeftTwice(left, d);
    assert PrintRight(ParseLeft(left, d)) == PrintRight(d);
  }

  lemma RightWritten(slot: Slot, d: Config, c: Config, value: string)
    requires LoadOne(slot, d, true) == (slot, c) && |PrintLeft(d)| <= BUFFER && |PrintRight(d)| <= BUFFER
    requires !Blank(value) && |value| <= BUFFER
    ensures LoadOne(slot.(right := value), d, true)
         == (slot.(right := value), ParseRight(value, ParseLeft(Read(slot.left), d)))
    ensures c == ParseRight(Read(slot.right), ParseLeft(Read(slot.left), d))
  {
    hide ParseLeft, ParseRight, Blank, EscapeCaption;
    SlotKept(slot, d);
    ParseLeftTwice(Read(slot.left), d);
  }

  /** A new right-click function, or none, is what a restart shows. */
  lemma RightAssigned(slot: Slot, d: Config, c: Config, now: Config)
    requires LoadOne(slot, d, true) == (slot, c) && |PrintLeft(d)| <= BUFFER && |PrintRight(d)| <= BUFFER
    requires now == c.(rightCaption := now.rightCaption, rightCommand := now.rightCommand)
    requires |PersistedRight(now)| <= BUFFER && !Blank(PersistedRight(now))
    requires forall any :: ParseRight(PersistedRight(now), any)
                        == any.(rightCaption := now.rightCaption, rightCommand := now.rightCommand)
    ensures var s := slot.(right := PersistedRight(now)); LoadOne(s, d, true) == (s, now)
  {
    hide ParseLeft, ParseRight, Blank, PersistedRight, LoadOne;
    RightWritten(slot, d, c, PersistedRight(now));
    ParseRightTwice(Read(slot.right), ParseLeft(Read(slot.left), d));
  }

  /** A new caption and command are what a restart shows; the right-click function stays. */
  lemma LeftAssigned(slot: Slot, d: Config, c: Config, now: Config)
    requires LoadOne(slot, d, true) == (slot, c) && |PrintLeft(d)| <= BUFFER && |PrintRight(d)| <= BUFFER
    requires now == c.(caption := now.caption, command := now.command)
    requires |PrintLeft(now)| <= BUFFER
    requires forall any :: ParseLeft(PrintLeft(now), any) == any.(caption := now.caption, command := now.command)
    ensures var s := slot.(left := PrintLeft(now)); LoadOne(s, d, true) == (s, now)
  {
    hide ParseLeft, ParseRight, Blank, EscapeCaption;
    SlotKept(slot, d);
    BarNotBlank(EscapeCaption(now.caption), now.command);
    var before, after := ParseLeft(Read(slot.left), d), ParseLeft(PrintLeft(now), d);
    ParseLeftTwice(Read(slot.left), d);
    RightIgnoresLeft(Read(slot.right), before, after);
  }

  lemma RightIgnoresLeft(value: string, a: Config, b: Config)
    requires a.rightCaption == b.rightCaption && a.rightCommand == b.rightCommand
    ensures ParseRight(value, b) == ParseRight(value, a).(caption := b.caption, command := b.command)
  {
    hide Trim, UnescapeCaption, IndexOf, EqualsIgnoreCase;
  }

  /** Every caption and command the program writes is read back as it was. */
  lemma PersistedIsRead(c: Config, o: CommandOption)
    ensures var now := Assigned(c, o, true);
            |PersistedRight(now)| <= BUFFER && !Blank(PersistedRight(now)) &&
            forall any :: ParseRight(PersistedRight(now), any)
                       == any.(rightCaption := o.name, rightCommand := o.command)
    ensures var now := Assigned(c, o, false);
            |PrintLeft(now)| <= BUFFER &&
            forall any :: ParseLeft(PrintLeft(now), any) == any.(caption := Labelled(o), command := o.command)
  {
    hide ParseLeft, ParseRight, Blank;
    var right, left := Assigned(c, o, true), Assigned(c, o, false);
    LabelStorable(o);
    EscapedLabel(o);
    NoBackslash(o.name);
    NoBackslash(Labelled(o));
    BarNotBlank(EscapeCaption(o.name), o.command);
    forall any
      ensures ParseRight(PersistedRight(right), any) == any.(rightCaption := o.name, rightCommand := o.command)
    {
      StoredRightIsRead(right, any);
    }
    forall any ensures ParseLeft(PrintLeft(left), any) == any.(caption := Labelled(o), command := o.command) {
      StoredLeftIsRead(left, any);
    }
  }

  lemma ClearedIsRead(c: Config)
    ensures var now := Cleared(c);
            |PersistedRight(now)| <= BUFFER && !Blank(PersistedRight(now)) &&
            forall any :: ParseRight(PersistedRight(now), any) == any.(rightCaption := "", rightCommand := "")
  {
    hide ParseRight, Blank;
    NotBlankAt("none", 0);
    forall any ensures ParseRight(PersistedRight(Cleared(c)), any) == any.(rightCaption := "", rightCommand := "") {
      NoneClears(any);
    }
  }

  /** One button changed in memory and in the store alike. */
  lemma StaysInStep(store: seq<Slot>, configs: seq<Config>, i: nat, slot: Slot, now: Config)
    requires InStep(store, configs) && i < BUTTONS && LoadOne(slot, DEFAULTS[i], true) == (slot, now)
    ensures InStep(store[i := slot], configs[i := now])
  {
    hide LoadOne, Blank, PrintLeft, PrintRight;
    var after := store[i := slot];
    DefaultsCount();
    DefaultFits(DEFAULT_BUTTONS[NEW_BUTTON]);
    RightFits(DEFAULT_BUTTONS[NEW_BUTTON]);
    SlotKept(after[NEW_BUTTON], DEFAULTS[NEW_BUTTON]);
  }

  function SlotAfter(slot: Slot, now: Config, rightClick: bool): Slot {
    if rightClick then slot.(right := PersistedRight(now)) else slot.(left := PrintLeft(now))
  }

  /** Assigning any function to any button keeps memory and store in step. */
  lemma AssignedInStep(store: seq<Slot>, configs: seq<Config>, i: nat, o: CommandOption, forRightClick: bool)
    requires InStep(store, configs) && i < BUTTONS
    ensures var now := Assigned(configs[i], o, forRightClick);
            InStep(store[i := SlotAfter(store[i], now, forRightClick)], configs[i := now])
  {
    hide LoadOne, ParseLeft, ParseRight, Blank, PrintLeft, PrintRight, PersistedRight, InStep;
    SlotInStep(store, configs, i);
    var now := Assigned(configs[i], o, forRightClick);
    PersistedIsRead(configs[i], o);
    if forRightClick {
      RightAssigned(store[i], DEFAULTS[i], configs[i], now);
    } else {
      LeftAssigned(store[i], DEFAULTS[i], configs[i], now);
    }
    StaysInStep(store, configs, i, SlotAfter(store[i], now, forRightClick), now);
  }

  lemma ClearedInStep(store: seq<Slot>, configs: seq<Config>, i: nat)
    requires InStep(store, configs) && i < BUTTONS
    ensures var now := Cleared(configs[i]);
            InStep(store[i := SlotAfter(store[i], now, true)], configs[i := now])
  {
    hide LoadOne, ParseLeft, ParseRight, Blank, PrintLeft, PrintRight, PersistedRight, InStep;
    SlotInStep(store, configs, i);
    var now := Cleared(configs[i]);
    ClearedIsRead(configs[i]);
    RightAssigned(store[i], DEFAULTS[i], configs[i], now);
    StaysInStep(store, configs, i, SlotAfter(store[i], now, true), now);
  }

  lemma SlotInStep(store: seq<Slot>, configs: seq<Config>, i: nat)
    requires InStep(store, configs) && i < BUTTONS
    ensures |store| == |configs| == |DEFAULTS| == BUTTONS
    ensures LoadOne(store[i], DEFAULTS[i], true) == (store[i], configs[i])
    ensures |PrintLeft(DEFAULTS[i])| <= BUFFER && |PrintRight(DEFAULTS[i])| <= BUFFER
  {
    DefaultsCount();
    DefaultFits(DEFAULT_BUTTONS[i]);
    RightFits(DEFAULT_BUTTONS[i]);
  }

  // ----- The form -----

  class ButtonPanel {
    var iniExists: bool
    var ini: seq<Slot>
    var commandButtonConfigs: seq<Config>

    constructor (iniExists: bool, ini: seq<Slot>, defaults: seq<Config>)
      ensures this.iniExists == iniExists && this.ini == ini && commandButtonConfigs == defaults
    {
      this.iniExists, this.ini, commandButtonConfigs := iniExists, ini, defaults;
    }

    method MigrateBorderlessFullscreen()
      requires |ini| > OLD_BUTTON
      modifies this`ini
      ensures ini == Migrate(old(ini))
    {
      var legacyRightClick := Trim(Read(ini[OLD_BUTTON].right));
      var isLegacyDefault := EqualsIgnoreCase(legacyRightClick, "Borderless Fullscreen|SIGNAL|BORDERLESS_FS")
        || EqualsIgnoreCase(legacyRightClick, "SIGNAL|BORDERLESS_FS");
      if isLegacyDefault && Trim(Read(ini[NEW_BUTTON].right)) == "" {
        ini := ini[NEW_BUTTON := ini[NEW_BUTTON].(right := legacyRightClick)];
        ini := ini[OLD_BUTTON := ini[OLD_BUTTON].(right := "none")];
      }
    }

    /** The migration and the loop over the buttons. */
    method LoadButtons()
      requires |ini| == |commandButtonConfigs| > OLD_BUTTON
      modifies this`ini, this`commandButtonConfigs
      ensures (ini, commandButtonConfigs) == Load(old(ini), old(commandButtonConfigs), iniExists)
    {
      hide ParseLeft, ParseRight, Migrate, Blank;
      var canPersist := iniExists;
      if canPersist { MigrateBorderlessFullscreen(); }
      ghost var migrated := ini;
      for i := 0 to |commandButtonConfigs|
        invariant |ini| == |migrated| == |commandButtonConfigs| == |old(commandButtonConfigs)|
        invariant forall k :: 0 <= k < i ==>
                  (ini[k], commandButtonConfigs[k]) == LoadOne(migrated[k], old(commandButtonConfigs)[k], canPersist)
        invariant forall k :: i <= k < |ini| ==>
                    ini[k] == migrated[k] && commandButtonConfigs[k] == old(commandButtonConfigs)[k]
      {
        LoadButton(i, canPersist);
      }
      ghost var all := Load(old(ini), old(commandButtonConfigs), canPersist);
      assert ini == all.0 && commandButtonConfigs == all.1;
    }

    /** What loading makes of every stored text, whatever it is. */
    method LoadButtonConfiguration()
      requires |ini| == |commandButtonConfigs| > OLD_BUTTON
      modifies this`ini, this`commandButtonConfigs
      ensures (ini, commandButtonConfigs) == Load(old(ini), old(commandButtonConfigs), iniExists)
      ensures old(commandButtonConfigs) == DEFAULTS && |DEFAULTS| == BUTTONS ==> Restartable()
      ensures !iniExists ==> ini == old(ini)
      ensures forall i :: 0 <= i < |ini| && (iniExists && Moves(old(ini)) ==> i != 10 && i != 13) ==>
                Answered(old(ini)[i], old(commandButtonConfigs)[i], ini[i], commandButtonConfigs[i])
      ensures iniExists && Moves(old(ini)) ==>
                var t := Trim(Read(old(ini)[13].right));
                RightAnswer(t, old(commandButtonConfigs)[10], commandButtonConfigs[10]) && ini[10].right == t &&
                commandButtonConfigs[13].rightCommand == "" && ini[13].right == "none"
    {
      hide Load, Answered, RightAnswer, Moves, InStep;
      LoadButtons();
      if |old(ini)| == BUTTONS { LoadedInStep(old(ini)); }
      forall i | 0 <= i < |ini| && (iniExists && Moves(old(ini)) ==> i != 10 && i != 13)
        ensures Answered(old(ini)[i], old(commandButtonConfigs)[i], ini[i], commandButtonConfigs[i])
      {
        LoadAnswers(old(ini), old(commandButtonConfigs), iniExists, i);
      }
      if iniExists && Moves(old(ini)) { MoveAnswers(old(ini), old(commandButtonConfigs)); }
      if !iniExists { LoadWritesNothing(old(ini), old(commandButtonConfigs)); }
    }

    /** A restart would show what memory holds now; without a file there is nothing to agree with. */
    predicate Restartable() reads this {
      |commandButtonConfigs| == |ini| == BUTTONS && (iniExists ==> InStep(ini, commandButtonConfigs))
    }

    method PersistButtonSetting(index: nat, rightClick: bool)
      requires index < |ini| == |commandButtonConfigs|
      modifies this`ini
      ensures ini == if iniExists
                     then old(ini)[index := SlotAfter(old(ini)[index], commandButtonConfigs[index], rightClick)]
                     else old(ini)
    {
      if !iniExists { return; }
      var config := commandButtonConfigs[index];
      if rightClick {
        var value := if config.rightCommand != ""
          then EscapeCaption(config.rightCaption) + "|" + config.rightCommand
          else "none";
        ini := ini[index := ini[index].(right := value)];
      } else {
        ini := ini[index := ini[index].(left := EscapeCaption(config.caption) + "|" + config.command)];
      }
    }

    method AssignCommandFunctionToButton(index: int, option: CommandOption, forRightClick: bool)
      requires Restartable()
      modifies this`ini, this`commandButtonConfigs
      ensures Restartable()
      ensures commandButtonConfigs ==
                if 0 <= index < |old(commandButtonConfigs)|
                then old(commandButtonConfigs)
                       [index := Assigned(old(commandButtonConfigs)[index], option, forRightClick)]
                else old(commandButtonConfigs)
    {
      if index < 0 || index >= |commandButtonConfigs| { return; }
      hide InStep, PersistedRight, PrintLeft;
      if iniExists { AssignedInStep(ini, commandButtonConfigs, index, option, forRightClick); }
      var config := commandButtonConfigs[index];
      if forRightClick {
        config := config.(rightCaption := option.name, rightCommand := option.command);
        commandButtonConfigs := commandButtonConfigs[index := config];
        PersistButtonSetting(index, true);
        return;
      }
      var caption := if |option.shortcut| > 0 then option.name + "\n(" + option.shortcut + ")" else option.name;
      config := config.(caption := caption, command := option.command);
      commandButtonConfigs := commandButtonConfigs[index := config];
      PersistButtonSetting(index, false);
    }

    method ClearCommandFunctionFromButton(index: int)
      requires Restartable()
      modifies this`ini, this`commandButtonConfigs
      ensures Restartable()
      ensures commandButtonConfigs ==
                if 0 <= index < |old(commandButtonConfigs)|
                then old(commandButtonConfigs)[index := Cleared(old(commandButtonConfigs)[index])]
                else old(commandButtonConfigs)
    {
      if index < 0 || index >= |commandButtonConfigs| { return; }
      hide InStep, PersistedRight, PrintLeft;
      if iniExists { ClearedInStep(ini, commandButtonConfigs, index); }
      var config := commandButtonConfigs[index].(rightCaption := "", rightCommand := "");
      commandButtonConfigs := commandButtonConfigs[index := config];
      PersistButtonSetting(index, true);
    }

    /** One round of the loop. */
    method LoadButton(i: nat, canPersist: bool)
      requires i < |ini| == |commandButtonConfigs|
      modifies this`ini, this`commandButtonConfigs
      ensures var (slot, config) := LoadOne(old(ini)[i], old(commandButtonConfigs)[i], canPersist);
              ini == old(ini)[i := slot] && commandButtonConfigs == old(commandButtonConfigs)[i := config]
    {
      hide ParseLeft, ParseRight;
      var config := commandButtonConfigs[i];
      var value := Read(ini[i].left);
      if Blank(value) {
        value := EscapeCaption(config.caption) + "|" + config.command;
        if canPersist { ini := ini[i := ini[i].(left := value)]; }
      }
      config := ParseLeft(value, config);
      var rightClickValue := Read(ini[i].right);
      if Blank(rightClickValue) && config.rightCommand != "" {
        rightClickValue := EscapeCaption(config.rightCaption) + "|" + config.rightCommand;
        if canPersist { ini := ini[i := ini[i].(right := rightClickValue)]; }
      }
      config := ParseRight(rightClickValue, config);
      commandButtonConfigs := commandButtonConfigs[i := config];
    }
  }
}
