/**
 `agent.rs`, reading a pane: ANSI stripping, and the content detectors that look at its bottom
 lines. A pattern that is only ever applied to one line is a parameter: what is proved here holds
 whatever it accepts.
 */
module PaneText {
  import opened Wrappers
  import opened Strings
  import AgentStatus

  type State = AgentStatus.AgentState

  const ESC: char := '\U{1B}'
  const BEL: char := '\U{7}'

  // ---- characters and lines -----------------------------------------------------------------

  /** Unicode White_Space. */
  predicate IsSpace(c: char) {
    || '\U{9}' <= c <= '\U{D}' || c == ' ' || c == '\U{85}' || c == '\U{A0}' || c == '\U{1680}'
    || '\U{2000}' <= c <= '\U{200A}' || c == '\U{2028}' || c == '\U{2029}' || c == '\U{202F}'
    || c == '\U{205F}' || c == '\U{3000}'
  }

  /** The 25 code points with the White_Space property, one by one. */
  const WHITE_SPACE: set<int> := {
    0x9, 0xA, 0xB, 0xC, 0xD, 0x20, 0x85, 0xA0, 0x1680, 0x2000, 0x2001, 0x2002, 0x2003, 0x2004, 0x2005, 0x2006,
    0x2007, 0x2008, 0x2009, 0x200A, 0x2028, 0x2029, 0x202F, 0x205F, 0x3000
  }

  lemma IsSpaceIs(c: char)
    ensures IsSpace(c) <==> c as int in WHITE_SPACE
  {
  }

  predicate IsDigit(c: char) { '0' <= c <= '9' }

  predicate IsLetter(c: char) { 'a' <= c <= 'z' || 'A' <= c <= 'Z' }

  function TrimStart(s: string): string {
    if s != [] && IsSpace(s[0]) then TrimStart(s[1..]) else s
  }

  function TrimEnd(s: string): string {
    if s != [] && IsSpace(s[|s| - 1]) then TrimEnd(s[..|s| - 1]) else s
  }

  function Trim(s: string): string {
    TrimEnd(TrimStart(s))
  }

  /** Trimming leaves nothing. */
  predicate IsBlank(line: string) {
    forall i | 0 <= i < |line| :: IsSpace(line[i])
  }

  predicate EndsWith(s: string, part: string) {
    |part| <= |s| && s[|s| - |part|..] == part
  }

  /** The index of the first `c` at or after `from`, or the length. */
  function Find(s: string, c: char, from: nat): (i: nat)
    requires from <= |s|
    ensures from <= i <= |s|
    ensures i < |s| ==> s[i] == c
    ensures forall j | from <= j < i :: s[j] != c
    decreases |s| - from
  {
    if from == |s| || s[from] == c then from else Find(s, c, from + 1)
  }

  function WithoutCr(line: string): string {
    if line != [] && line[|line| - 1] == '\r' then line[..|line| - 1] else line
  }

  /** `str::lines`: a final line without a newline keeps a carriage return. */
  function Lines(s: string): seq<string>
    decreases |s|
  {
    if s == [] then []
    else
      var i := Find(s, '\n', 0);
      if i == |s| then [s] else [WithoutCr(s[..i])] + Lines(s[i + 1..])
  }

  /** Text made of whole lines. */
  predicate WholeLines(s: string) {
    s == [] || s[|s| - 1] == '\n'
  }

  lemma {:induction false} FirstNewline(prefix: string, s: string)
    requires prefix != [] && WholeLines(prefix)
    ensures Find(prefix + s, '\n', 0) == Find(prefix, '\n', 0) < |prefix|
  {
    var whole := prefix + s;
    var i := Find(prefix, '\n', 0);
    assert prefix[|prefix| - 1] == '\n' && whole[i] == prefix[i];
    assert forall k | 0 <= k < |prefix| :: whole[k] == prefix[k];
  }

  lemma {:induction false} LinesOfPrefixed(prefix: string, s: string)
    requires WholeLines(prefix)
    ensures Lines(prefix + s) == Lines(prefix) + Lines(s)
    decreases |prefix|
  {
    hide Find, WithoutCr;
    var whole := prefix + s;
    if prefix == [] {
      assert whole == s;
    } else {
      FirstNewline(prefix, s);
      var i := Find(prefix, '\n', 0);
      assert whole[..i] == prefix[..i] && whole[i + 1..] == prefix[i + 1..] + s;
      LinesOfPrefixed(prefix[i + 1..], s);
    }
  }

  function CountNonBlank(lines: seq<string>): nat {
    if lines == [] then 0
    else CountNonBlank(lines[..|lines| - 1]) + (if IsBlank(lines[|lines| - 1]) then 0 else 1)
  }

  /** The last `n` non-blank lines, bottom first. */
  function Trailing(lines: seq<string>, n: nat): seq<string> {
    if n == 0 || lines == [] then []
    else
      var last, above := lines[|lines| - 1], lines[..|lines| - 1];
      if IsBlank(last) then Trailing(above, n) else [last] + Trailing(above, n - 1)
  }

  lemma {:induction false} OneLineBelow(lines: seq<string>, last: string, n: nat)
    ensures CountNonBlank(lines + [last]) == CountNonBlank(lines) + (if IsBlank(last) then 0 else 1)
    ensures Trailing(lines + [last], n) ==
            (if n == 0 then [] else if IsBlank(last) then Trailing(lines, n) else [last] + Trailing(lines, n - 1))
  {
    hide IsBlank;
    assert (lines + [last])[..|lines|] == lines;
  }

  /** The window fills up from the pane before it reaches anything above it. */
  lemma {:induction false} TrailingOfPrefixed(above: seq<string>, lines: seq<string>, n: nat)
    ensures Trailing(above + lines, n)
         == Trailing(lines, n) + (if CountNonBlank(lines) >= n then [] else Trailing(above, n - CountNonBlank(lines)))
    decreases |lines|, 1
  {
    if lines == [] {
      assert above + lines == above;
    } else {
      TrailingStep(above, lines[..|lines| - 1], lines[|lines| - 1], n);
      assert lines == lines[..|lines| - 1] + [lines[|lines| - 1]];
    }
  }

  lemma {:induction false} TrailingStep(above: seq<string>, rest: seq<string>, last: string, n: nat)
    ensures var lines := rest + [last];
            Trailing(above + lines, n) ==
            Trailing(lines, n) + (if CountNonBlank(lines) >= n then [] else Trailing(above, n - CountNonBlank(lines)))
    decreases |rest| + 1, 0
  {
    hide IsBlank, Trailing, CountNonBlank;
    OneLineBelow(rest, last, n);
    OneLineBelow(above + rest, last, n);
    assert above + (rest + [last]) == (above + rest) + [last];
    if n > 0 {
      TrailingOfPrefixed(above, rest, if IsBlank(last) then n else n - 1);
    }
  }

  /** A line just above a pane that does not fill the window ends up at its top. */
  lemma {:induction false} OneLineAbove(line: string, lines: seq<string>, n: nat)
    requires !IsBlank(line) && CountNonBlank(lines) < n
    ensures Trailing([line] + lines, n) == Trailing(lines, n) + [line]
  {
    hide IsBlank;
    TrailingOfPrefixed([line], lines, n);
    assert [line][..0] == [];
    assert Trailing([line], n - CountNonBlank(lines)) == [line] + Trailing([], n - CountNonBlank(lines) - 1) == [line];
  }

  // ---- stripping ----------------------------------------------------------------------------

  predicate IsParam(c: char) { IsDigit(c) || c == ';' }

  function AfterParams(s: string, from: nat): (i: nat)
    requires from <= |s|
    ensures from <= i <= |s|
    decreases |s| - from
  {
    if from < |s| && IsParam(s[from]) then AfterParams(s, from + 1) else from
  }

  /** The length of the escape sequence the text starts with, 0 if it starts with none. */
  function EscapeLength(s: string): (n: nat)
    ensures n <= |s|
  {
    if |s| < 2 || s[0] != ESC then 0
    else if s[1] == '[' then
      var i := AfterParams(s, 2);
      if i < |s| && IsLetter(s[i]) then i + 1 else 0
    else if s[1] == ']' then
      var bel := Find(s, BEL, 2);
      var esc := Find(s, ESC, 2);
      if bel < |s| then bel + 1
      else if esc + 1 < |s| && s[esc + 1] == '\\' then esc + 2
      else 0
    else 0
  }

  /** `strip_ansi`: every escape sequence found scanning left to right is dropped. */
  function Strip(s: string): string
    decreases |s|
  {
    if s == [] then []
    else if EscapeLength(s) > 0 then Strip(s[EscapeLength(s)..])
    else [s[0]] + Strip(s[1..])
  }

  // ---- which sequences are escapes --------------------------------------------------------------

  /** `ESC [`, digits and semicolons, a letter. */
  predicate IsCsi(e: string) {
    && |e| >= 3 && e[0] == ESC && e[1] == '['
    && (forall i | 2 <= i < |e| - 1 :: '0' <= e[i] <= '9' || e[i] == ';')
    && var final := e[|e| - 1];
       'a' <= final <= 'z' || 'A' <= final <= 'Z'
  }

  /** `ESC ]` up to the first BEL. */
  predicate IsOscToBel(e: string) {
    |e| >= 3 && e[0] == ESC && e[1] == ']' && e[|e| - 1] == BEL && BEL !in e[2..|e| - 1]
  }

  /** `ESC ]` up to the next ESC, which has a backslash behind it. */
  predicate IsOscToSt(e: string) {
    && |e| >= 4 && e[0] == ESC && e[1] == ']' && e[|e| - 2] == ESC && e[|e| - 1] == '\\'
    && ESC !in e[2..|e| - 2]
  }

  lemma {:induction false} ParamsAre(s: string, from: nat)
    requires from <= |s|
    ensures var end := AfterParams(s, from);
            (forall i | from <= i < end :: IsParam(s[i])) && (end < |s| ==> !IsParam(s[end]))
    decreases |s| - from
  {
    if from < |s| && IsParam(s[from]) {
      ParamsAre(s, from + 1);
    }
  }

  /**
   What is taken for an escape at the front of a text: a control sequence, an operating system
   command up to the first BEL, or one up to its own terminator, and that only if there is no BEL
   in all the text behind it.
   */
  lemma {:induction false} EscapeIs(s: string, n: nat)
    requires 0 < n <= |s|
    ensures EscapeLength(s) == n <==> IsCsi(s[..n]) || IsOscToBel(s[..n]) || (IsOscToSt(s[..n]) && BEL !in s[2..])
  {
    var e := s[..n];
    if |s| >= 2 && s[0] == ESC && s[1] == '[' {
      CsiIs(s, n);
    } else if |s| >= 2 && s[0] == ESC && s[1] == ']' {
      OscIs(s, n);
    }
  }

  lemma {:induction false} CsiIs(s: string, n: nat)
    requires |s| >= 2 && s[0] == ESC && s[1] == '[' && 0 < n <= |s|
    ensures EscapeLength(s) == n <==> IsCsi(s[..n])
  {
    var e := s[..n];
    ParamsAre(s, 2);
    if IsCsi(e) {
      assert forall i | 2 <= i < n - 1 :: e[i] == s[i];
      ParamsEnd(s, 2, n - 1);
    }
  }

  lemma {:induction false} OscIs(s: string, n: nat)
    requires |s| >= 2 && s[0] == ESC && s[1] == ']' && 0 < n <= |s|
    ensures EscapeLength(s) == n <==> IsOscToBel(s[..n]) || (IsOscToSt(s[..n]) && BEL !in s[2..])
  {
    var e := s[..n];
    var bel, esc := Find(s, BEL, 2), Find(s, ESC, 2);
    if bel < |s| {
      assert s[2..][bel - 2] == BEL;
      if IsOscToBel(e) {
        assert e[2..n - 1] == s[2..n - 1];
        assert bel >= n - 1;
      }
      if n == bel + 1 {
        assert e[2..n - 1] == s[2..bel];
      }
    } else {
      assert BEL !in s[2..];
      if IsOscToSt(e) {
        assert esc >= n - 2;
      }
      if n == esc + 2 {
        assert e[2..n - 2] == s[2..esc];
      }
    }
  }

  // ---- coloured text ----------------------------------------------------------------------------

  /** Plain text without escapes, and complete sequences: colours, and commands that end in BEL or in ESC. */
  datatype Segment =
    | Plain(text: string)
    | Csi(params: string, final: char)
    | OscToBel(command: string)
    | OscToSt(command: string)

  predicate Clean(text: string) {
    forall i | 0 <= i < |text| :: text[i] != ESC
  }

  predicate Proper(g: Segment) {
    match g
    case Plain(text) => Clean(text)
    case Csi(params, final) => IsLetter(final) && forall i | 0 <= i < |params| :: IsParam(params[i])
    case OscToBel(command) => BEL !in command
    case OscToSt(command) => BEL !in command && ESC !in command
  }

  function RenderOne(g: Segment): string {
    match g
    case Plain(text) => text
    case Csi(params, final) => [ESC, '['] + params + [final]
    case OscToBel(command) => [ESC, ']'] + command + [BEL]
    case OscToSt(command) => [ESC, ']'] + command + [ESC, '\\']
  }

  function Render(gs: seq<Segment>): string {
    if gs == [] then [] else RenderOne(gs[0]) + Render(gs[1..])
  }

  function TextOf(g: Segment): string {
    if g.Plain? then g.text else []
  }

  function Uncoloured(gs: seq<Segment>): string {
    if gs == [] then [] else TextOf(gs[0]) + Uncoloured(gs[1..])
  }

  lemma {:induction false} StripPlain(text: string, rest: string)
    requires Clean(text)
    ensures Strip(text + rest) == text + Strip(rest)
    decreases |text|
  {
    if text == [] {
      assert text + rest == rest;
    } else {
      var s := text + rest;
      assert s[0] == text[0] != ESC && s[1..] == text[1..] + rest;
      StripPlain(text[1..], rest);
    }
  }

  lemma {:induction false} ParamsEnd(s: string, from: nat, end: nat)
    requires from <= end < |s| && !IsParam(s[end])
    requires forall i | from <= i < end :: IsParam(s[i])
    ensures AfterParams(s, from) == end
    decreases end - from
  {
    if from < end {
      ParamsEnd(s, from + 1, end);
    }
  }

  lemma StripCsi(params: string, final: char, rest: string)
    requires Proper(Csi(params, final))
    ensures Strip([ESC, '['] + params + [final] + rest) == Strip(rest)
  {
    var s := [ESC, '['] + params + [final] + rest;
    var end := 2 + |params|;
    assert s[end] == final && forall i | 2 <= i < end :: s[i] == params[i - 2];
    ParamsEnd(s, 2, end);
    assert s[end + 1..] == rest;
  }

  /** No BEL comes behind a command that ends in ESC. */
  predicate Quiet(gs: seq<Segment>) {
    gs == [] || (Quiet(gs[1..]) && (gs[0].OscToSt? ==> BEL !in Render(gs[1..])))
  }

  lemma StripEscape(e: string, rest: string)
    requires e != [] && EscapeLength(e + rest) == |e|
    ensures Strip(e + rest) == Strip(rest)
  {
    assert (e + rest)[|e|..] == rest;
  }

  lemma {:induction false} StripOsc(g: Segment, rest: string)
    requires Proper(g) && (g.OscToBel? || g.OscToSt?) && (g.OscToSt? ==> BEL !in rest)
    ensures Strip(RenderOne(g) + rest) == Strip(rest)
  {
    var e := RenderOne(g);
    var s := e + rest;
    assert s[..|e|] == e && s[2..] == e[2..] + rest;
    if g.OscToBel? {
      assert e[2..|e| - 1] == g.command;
    } else {
      assert e[2..|e| - 2] == g.command && e[2..] == g.command + [ESC, '\\'];
    }
    EscapeIs(s, |e|);
    StripEscape(e, rest);
  }

  lemma {:induction false} StripOne(g: Segment, rest: string)
    requires Proper(g) && (g.OscToSt? ==> BEL !in rest)
    ensures Strip(RenderOne(g) + rest) == TextOf(g) + Strip(rest)
  {
    match g
    case Plain(text) => StripPlain(text, rest);
    case Csi(params, final) =>
      StripCsi(params, final, rest);
      assert [] + Strip(rest) == Strip(rest);
    case _ =>
      StripOsc(g, rest);
      assert [] + Strip(rest) == Strip(rest);
  }

  /**
   Stripping restores any escape-free text interleaved with complete sequences, as long as no BEL
   comes behind a command that ends in ESC.
   */
  lemma {:induction false} StripRestores(gs: seq<Segment>)
    requires (forall g | g in gs :: Proper(g)) && Quiet(gs)
    ensures Strip(Render(gs)) == Uncoloured(gs)
  {
    if gs != [] {
      assert gs[0] in gs;
      StripRestores(gs[1..]);
      StripOne(gs[0], Render(gs[1..]));
    }
  }

  /** If one does, everything up to and including the first BEL is lost, text and all. */
  lemma {:induction false} BelSwallows(command: string, between: string, rest: string)
    requires Proper(OscToSt(command)) && BEL !in between
    ensures Strip(RenderOne(OscToSt(command)) + between + [BEL] + rest) == Strip(rest)
  {
    var e := RenderOne(OscToSt(command)) + between + [BEL];
    var s := e + rest;
    assert s[..|e|] == e && e[2..|e| - 1] == command + [ESC, '\\'] + between;
    EscapeIs(s, |e|);
    StripEscape(e, rest);
    assert s == RenderOne(OscToSt(command)) + between + [BEL] + rest;
  }

  lemma {:induction false} QuietEnd(above: seq<Segment>, gs: seq<Segment>)
    requires Quiet(above + gs)
    ensures Quiet(gs)
  {
    if above == [] {
      assert above + gs == gs;
    } else {
      assert (above + gs)[1..] == above[1..] + gs;
      QuietEnd(above[1..], gs);
    }
  }

  lemma Associative(a: string, b: string, c: string)
    ensures (a + b) + c == a + (b + c)
  {
  }

  lemma {:induction false} RenderOfPrefixed(above: seq<Segment>, gs: seq<Segment>)
    ensures Render(above + gs) == Render(above) + Render(gs)
    ensures Uncoloured(above + gs) == Uncoloured(above) + Uncoloured(gs)
  {
    if above == [] {
      assert above + gs == gs;
    } else {
      var g, rest := above[0], above[1..];
      assert (above + gs)[1..] == rest + gs;
      RenderOfPrefixed(rest, gs);
      Associative(RenderOne(g), Render(rest), Render(gs));
      Associative(TextOf(g), Uncoloured(rest), Uncoloured(gs));
    }
  }

  // ---- Claude -------------------------------------------------------------------------------

  const PROMPT: char := '\U{276F}'
  const ELLIPSIS: char := '\U{2026}'
  const CLAUDE_WINDOW := 10

  /** A selection menu: the first prompt glyph of the line is followed by a digit. */
  predicate IsMenu(line: string) {
    var pos := Find(line, PROMPT, 0);
    pos < |line| &&
    var after := TrimStart(line[pos + 1..]);
    after != [] && IsDigit(after[0])
  }

  /** What a line says about Claude waiting for the user, if anything. */
  function Attention(line: string): Option<State> {
    if Contains(line, "Esc to cancel") || Contains(line, "No, and tell Claude what to do differently")
    then Some(AgentStatus.AgentState.WaitingForApproval)
    else if IsMenu(line) then Some(AgentStatus.AgentState.WaitingForInput)
    else None
  }

  function FirstAttention(lines: seq<string>): Option<State> {
    if lines == [] then None
    else if Attention(lines[0]).Some? then Attention(lines[0])
    else FirstAttention(lines[1..])
  }

  function Lower(s: string): string {
    if s == [] then []
    else [if 'A' <= s[0] <= 'Z' then (s[0] as int + 32) as char else s[0]] + Lower(s[1..])
  }

  function LiveActivity(line: string): State {
    var lower := Lower(line);
    if Contains(lower, "compact") then AgentStatus.AgentState.Compacting
    else if Contains(lower, "retry") || Contains(lower, "reconnect") then AgentStatus.AgentState.Retrying
    else AgentStatus.AgentState.Working
  }

  predicate IsSpinnerGlyph(c: char) {
    c == '\U{273D}' || c == '\U{273B}' || c == '\U{2736}' || c == '\U{2733}' || c == '\U{2722}' || c == '\U{B7}'
  }

  predicate IsBareSpinner(line: string) {
    var t := Trim(line);
    t != [] && IsSpinnerGlyph(t[0]) && (t[|t| - 1] == ELLIPSIS || EndsWith(t, "..."))
  }

  /** The first line of the window, bottom first, that the status pattern accepts. */
  function FirstLive(lines: seq<string>, live: string -> bool): Option<string> {
    if lines == [] then None
    else if live(lines[0]) then Some(lines[0])
    else FirstLive(lines[1..], live)
  }

  function ClaudeWindowState(window: seq<string>, live: string -> bool): State {
    if FirstAttention(window).Some? then FirstAttention(window).value
    else if FirstLive(window, live).Some? then LiveActivity(FirstLive(window, live).value)
    else if exists line | line in window :: IsBareSpinner(line) then AgentStatus.AgentState.Unknown
    else if exists line | line in window :: Trim(line) == [PROMPT] then AgentStatus.AgentState.Idle
    else AgentStatus.AgentState.Unknown
  }

  /** `claude_content_state` on the lines of a stripped pane. */
  function ClaudeState(lines: seq<string>, live: string -> bool): State {
    ClaudeWindowState(Trailing(lines, CLAUDE_WINDOW), live)
  }

  lemma {:induction false} AttentionIsWaiting(lines: seq<string>)
    ensures FirstAttention(lines).Some? ==>
              FirstAttention(lines).value.WaitingForApproval? || FirstAttention(lines).value.WaitingForInput?
  {
    if lines != [] {
      AttentionIsWaiting(lines[1..]);
    }
  }

  lemma {:induction false} FirstAttentionOfJoined(a: seq<string>, b: seq<string>)
    ensures FirstAttention(a + b) == if FirstAttention(a).Some? then FirstAttention(a) else FirstAttention(b)
  {
    if a == [] {
      assert a + b == b;
    } else {
      assert (a + b)[1..] == a[1..] + b;
      FirstAttentionOfJoined(a[1..], b);
    }
  }

  const CANCEL_LINE := "Esc to cancel"

  lemma CancelLineAlarms()
    ensures !IsBlank(CANCEL_LINE)
    ensures FirstAttention([CANCEL_LINE]) == Some(AgentStatus.AgentState.WaitingForApproval)
  {
    assert CANCEL_LINE[0] == 'E';
    assert Contains(CANCEL_LINE, "Esc to cancel");
    assert [CANCEL_LINE][0] == CANCEL_LINE;
  }

  ghost predicate TranscriptIndependent(lines: seq<string>, live: string -> bool) {
    forall above: seq<string> :: ClaudeState(above + lines, live) == ClaudeState(lines, live)
  }

  /**
   Transcript independence, exactly: what scrolls in above a Claude pane can never change its
   state if and only if the pane has 10 non-blank lines, or one of its own lines already asks for
   the user.
   */
  lemma {:induction false} ClaudeTranscriptIndependence(lines: seq<string>, live: string -> bool)
    ensures TranscriptIndependent(lines, live) <==>
            CountNonBlank(lines) >= CLAUDE_WINDOW || FirstAttention(Trailing(lines, CLAUDE_WINDOW)).Some?
  {
    if CountNonBlank(lines) >= CLAUDE_WINDOW || FirstAttention(Trailing(lines, CLAUDE_WINDOW)).Some? {
      forall above: seq<string> ensures ClaudeState(above + lines, live) == ClaudeState(lines, live) {
        NothingAboveMatters(above, lines, live);
      }
    } else {
      AnAlarmAboveIsSeen(lines, live);
    }
  }

  lemma {:induction false} NothingAboveMatters(above: seq<string>, lines: seq<string>, live: string -> bool)
    requires CountNonBlank(lines) >= CLAUDE_WINDOW || FirstAttention(Trailing(lines, CLAUDE_WINDOW)).Some?
    ensures ClaudeState(above + lines, live) == ClaudeState(lines, live)
  {
    var own := Trailing(lines, CLAUDE_WINDOW);
    TrailingOfPrefixed(above, lines, CLAUDE_WINDOW);
    if CountNonBlank(lines) >= CLAUDE_WINDOW {
      assert own + [] == own;
    } else {
      FirstAttentionOfJoined(own, Trailing(above, CLAUDE_WINDOW - CountNonBlank(lines)));
    }
  }

  lemma {:induction false} AnAlarmAboveIsSeen(lines: seq<string>, live: string -> bool)
    requires CountNonBlank(lines) < CLAUDE_WINDOW && FirstAttention(Trailing(lines, CLAUDE_WINDOW)).None?
    ensures ClaudeState([CANCEL_LINE] + lines, live) != ClaudeState(lines, live)
  {
    CancelLineAlarms();
    OneLineAbove(CANCEL_LINE, lines, CLAUDE_WINDOW);
    FirstAttentionOfJoined(Trailing(lines, CLAUDE_WINDOW), [CANCEL_LINE]);
  }

  // ---- OpenCode -----------------------------------------------------------------------------

  const OPENCODE_WORKING_MARKER := "esc interrupt"
  const OPENCODE_PERMISSION_MARKER := "Permission required"
  const OPENCODE_FOOTER_LINES := 3

  function OpenCodeState(content: string, completed: string -> bool): State {
    if Contains(content, OPENCODE_PERMISSION_MARKER) then AgentStatus.AgentState.WaitingForInput
    else if exists line | line in Trailing(Lines(content), OPENCODE_FOOTER_LINES) ::
              Contains(line, OPENCODE_WORKING_MARKER)
    then AgentStatus.AgentState.Working
    else if completed(content) then AgentStatus.AgentState.Idle
    else AgentStatus.AgentState.Unknown
  }

  /**
   A transcript that merely shows the words of the interrupt hint never pins a pane to Working,
   nor hides it: with no permission overlay on screen, Working is read off the footer alone.
   */
  lemma OpenCodeWorkingFromFooter(above: string, content: string, completed: string -> bool)
    requires WholeLines(above) && CountNonBlank(Lines(content)) >= OPENCODE_FOOTER_LINES
    requires !Contains(above + content, OPENCODE_PERMISSION_MARKER)
    ensures OpenCodeState(above + content, completed).Working? <==> OpenCodeState(content, completed).Working?
  {
    LinesOfPrefixed(above, content);
    TrailingOfPrefixed(Lines(above), Lines(content), OPENCODE_FOOTER_LINES);
    var footer := Trailing(Lines(content), OPENCODE_FOOTER_LINES);
    assert footer + [] == footer;
    if Contains(content, OPENCODE_PERMISSION_MARKER) {
      ContainsInSuffix(above, content, OPENCODE_PERMISSION_MARKER);
    }
  }

  // ---- Muse ---------------------------------------------------------------------------------

  const MUSE_FOOTER_LINES := 8
  const RULE: char := '\U{2500}'
  const CORNER: char := '\U{2514}'

  predicate HasMuseFooter(line: string) {
    || Contains(line, "Change approval defaults in /permissions")
    || Contains(line, "Enter to select \U{B7} \U{2191}/\U{2193} to move")
    || Contains(line, "Use Up/Down or 1/2, then Enter.")
  }

  predicate IsRule(line: string) {
    var t := Trim(line);
    t != [] && forall i | 0 <= i < |t| :: t[i] == RULE
  }

  /** The index of the last rule, if there is one. */
  function LastRule(lines: seq<string>): (i: Option<nat>)
    ensures i.Some? ==> i.value < |lines|
  {
    if lines == [] then None
    else if IsRule(lines[|lines| - 1]) then Some(|lines| - 1)
    else LastRule(lines[..|lines| - 1])
  }

  /** The composer's top rule is the second to last on the pane. */
  function TopRule(lines: seq<string>): (i: Option<nat>)
    ensures i.Some? ==> i.value < |lines|
  {
    var bottom := LastRule(lines);
    if bottom.None? then None else LastRule(lines[..bottom.value])
  }

  predicate AtColumn0(line: string) {
    !IsBlank(line) && !IsSpace(line[0]) && line[0] != CORNER
  }

  function LastAtColumn0(lines: seq<string>): Option<string> {
    if lines == [] then None
    else if AtColumn0(lines[|lines| - 1]) then Some(lines[|lines| - 1])
    else LastAtColumn0(lines[..|lines| - 1])
  }

  function StatusSlot(lines: seq<string>): Option<string> {
    var top := TopRule(lines);
    if top.None? then None else LastAtColumn0(lines[..top.value])
  }

  predicate AnyFooter(lines: seq<string>) {
    exists line | line in lines :: HasMuseFooter(line)
  }

  /** `muse_content_state` on the lines of a stripped pane. */
  function MuseState(lines: seq<string>, working: string -> bool): State {
    if AnyFooter(Trailing(lines, MUSE_FOOTER_LINES)) then AgentStatus.AgentState.WaitingForInput
    else if StatusSlot(lines).Some? && working(StatusSlot(lines).value) then AgentStatus.AgentState.Working
    else AgentStatus.AgentState.Idle
  }

  lemma {:induction false} LastRuleOfPrefixed(above: seq<string>, lines: seq<string>)
    requires LastRule(lines).Some?
    ensures LastRule(above + lines) == Some(|above| + LastRule(lines).value)
    decreases |lines|
  {
    var all := above + lines;
    assert all[|all| - 1] == lines[|lines| - 1] && all[..|all| - 1] == above + lines[..|lines| - 1];
    if !IsRule(lines[|lines| - 1]) {
      LastRuleOfPrefixed(above, lines[..|lines| - 1]);
    }
  }

  lemma {:induction false} LastAtColumn0OfPrefixed(above: seq<string>, lines: seq<string>)
    requires LastAtColumn0(lines).Some?
    ensures LastAtColumn0(above + lines) == LastAtColumn0(lines)
    decreases |lines|
  {
    var all := above + lines;
    assert all[|all| - 1] == lines[|lines| - 1] && all[..|all| - 1] == above + lines[..|lines| - 1];
    if !AtColumn0(lines[|lines| - 1]) {
      LastAtColumn0OfPrefixed(above, lines[..|lines| - 1]);
    }
  }

  lemma {:induction false} TopRuleOfPrefixed(above: seq<string>, lines: seq<string>)
    requires TopRule(lines).Some?
    ensures TopRule(above + lines) == Some(|above| + TopRule(lines).value)
  {
    LastRuleOfPrefixed(above, lines);
    var bottom := LastRule(lines).value;
    assert (above + lines)[..|above| + bottom] == above + lines[..bottom];
    LastRuleOfPrefixed(above, lines[..bottom]);
  }

  lemma {:induction false} StatusSlotOfPrefixed(above: seq<string>, lines: seq<string>)
    requires StatusSlot(lines).Some?
    ensures StatusSlot(above + lines) == StatusSlot(lines)
  {
    TopRuleOfPrefixed(above, lines);
    var top := TopRule(lines).value;
    assert (above + lines)[..|above| + top] == above + lines[..top];
    LastAtColumn0OfPrefixed(above, lines[..top]);
  }

  /** A line that would read as work in progress if it stood in the status slot. */
  ghost predicate SomeWorkingLine(working: string -> bool) {
    exists line :: AtColumn0(line) && working(line)
  }

  /**
   The pane asks for the user itself, or has 8 non-blank lines, together with a status line between
   column 0 and its two rules, if any line can pass for one.
   */
  ghost predicate MuseAnchored(lines: seq<string>, working: string -> bool) {
    || AnyFooter(Trailing(lines, MUSE_FOOTER_LINES))
    || (CountNonBlank(lines) >= MUSE_FOOTER_LINES && (StatusSlot(lines).Some? || !SomeWorkingLine(working)))
  }

  ghost predicate MuseIndependent(lines: seq<string>, working: string -> bool) {
    forall above: seq<string> :: MuseState(above + lines, working) == MuseState(lines, working)
  }

  /** Transcript independence of a Muse pane, exactly. */
  lemma {:induction false} MuseTranscriptIndependence(lines: seq<string>, working: string -> bool)
    ensures MuseIndependent(lines, working) <==> MuseAnchored(lines, working)
  {
    if MuseAnchored(lines, working) {
      forall above: seq<string> ensures MuseState(above + lines, working) == MuseState(lines, working) {
        NothingAboveMuseMatters(above, lines, working);
      }
    } else if CountNonBlank(lines) < MUSE_FOOTER_LINES {
      AFooterAboveIsSeen(lines, working);
    } else {
      AStatusAboveIsSeen(lines, working);
    }
  }

  lemma {:induction false} NothingAboveMuseMatters(above: seq<string>, lines: seq<string>, working: string -> bool)
    requires MuseAnchored(lines, working)
    ensures MuseState(above + lines, working) == MuseState(lines, working)
  {
    TrailingOfPrefixed(above, lines, MUSE_FOOTER_LINES);
    var footer := Trailing(lines, MUSE_FOOTER_LINES);
    assert footer + [] == footer;
    if AnyFooter(footer) {
      assert forall line | line in footer :: line in Trailing(above + lines, MUSE_FOOTER_LINES);
    } else if StatusSlot(lines).Some? {
      StatusSlotOfPrefixed(above, lines);
    } else {
      SlotIsAtColumn0(lines);
      SlotIsAtColumn0(above + lines);
    }
  }

  lemma {:induction false} SlotIsAtColumn0(lines: seq<string>)
    ensures StatusSlot(lines).Some? ==> AtColumn0(StatusSlot(lines).value)
  {
    if TopRule(lines).Some? {
      LastIsAtColumn0(lines[..TopRule(lines).value]);
    }
  }

  lemma {:induction false} LastIsAtColumn0(lines: seq<string>)
    ensures LastAtColumn0(lines).Some? ==> AtColumn0(LastAtColumn0(lines).value)
  {
    if lines != [] {
      LastIsAtColumn0(lines[..|lines| - 1]);
    }
  }

  const FOOTER_LINE := "Use Up/Down or 1/2, then Enter."
  const RULE_LINE := [RULE]

  lemma FooterLine()
    ensures !IsBlank(FOOTER_LINE) && HasMuseFooter(FOOTER_LINE)
  {
    assert FOOTER_LINE[0] == 'U';
    assert Contains(FOOTER_LINE, "Use Up/Down or 1/2, then Enter.");
  }

  lemma RuleLine()
    ensures IsRule(RULE_LINE)
  {
    assert Trim(RULE_LINE) == RULE_LINE;
  }

  lemma {:induction false} AFooterAboveIsSeen(lines: seq<string>, working: string -> bool)
    requires CountNonBlank(lines) < MUSE_FOOTER_LINES && !AnyFooter(Trailing(lines, MUSE_FOOTER_LINES))
    ensures MuseState([FOOTER_LINE] + lines, working) != MuseState(lines, working)
  {
    hide HasMuseFooter, IsBlank, IsRule, StatusSlot;
    FooterLine();
    OneLineAbove(FOOTER_LINE, lines, MUSE_FOOTER_LINES);
    var window := Trailing([FOOTER_LINE] + lines, MUSE_FOOTER_LINES);
    assert window[|window| - 1] == FOOTER_LINE && FOOTER_LINE in window;
  }

  lemma {:induction false} NoRuleOfPrefixed(above: seq<string>, lines: seq<string>)
    requires LastRule(lines).None?
    ensures LastRule(above + lines) == LastRule(above)
    decreases |lines|
  {
    var all := above + lines;
    if lines == [] {
      assert all == above;
    } else {
      assert all[|all| - 1] == lines[|lines| - 1] && all[..|all| - 1] == above + lines[..|lines| - 1];
      NoRuleOfPrefixed(above, lines[..|lines| - 1]);
    }
  }

  lemma {:induction false} NoneAtColumn0OfPrefixed(above: seq<string>, lines: seq<string>)
    requires LastAtColumn0(lines).None?
    ensures LastAtColumn0(above + lines) == LastAtColumn0(above)
    decreases |lines|
  {
    var all := above + lines;
    if lines == [] {
      assert all == above;
    } else {
      assert all[|all| - 1] == lines[|lines| - 1] && all[..|all| - 1] == above + lines[..|lines| - 1];
      NoneAtColumn0OfPrefixed(above, lines[..|lines| - 1]);
    }
  }

  /** What to put above a pane without a status slot so that `status` fills it. */
  function SlotFiller(lines: seq<string>, status: string): seq<string> {
    if LastRule(lines).None? then [status, RULE_LINE, RULE_LINE]
    else if TopRule(lines).None? then [status, RULE_LINE]
    else [status]
  }

  lemma {:induction false} OnlyStatus(status: string)
    requires AtColumn0(status)
    ensures LastAtColumn0([status]) == Some(status)
    ensures LastRule([status, RULE_LINE]) == Some(1) && LastRule([status, RULE_LINE, RULE_LINE]) == Some(2)
  {
    hide AtColumn0, IsRule;
    RuleLine();
    assert [status][0] == status;
    assert [status, RULE_LINE][1] == RULE_LINE && [status, RULE_LINE, RULE_LINE][2] == RULE_LINE;
  }

  lemma {:induction false} FilledWithRules(lines: seq<string>, status: string)
    requires LastRule(lines).None? && AtColumn0(status)
    ensures StatusSlot([status, RULE_LINE, RULE_LINE] + lines) == Some(status)
  {
    hide AtColumn0, IsRule, LastAtColumn0, LastRule;
    var above := [status, RULE_LINE, RULE_LINE];
    var all := above + lines;
    OnlyStatus(status);
    NoRuleOfPrefixed(above, lines);
    assert all[..2] == [status, RULE_LINE] && all[..1] == [status];
  }

  lemma {:induction false} FilledWithRule(lines: seq<string>, status: string)
    requires LastRule(lines).Some? && TopRule(lines).None? && AtColumn0(status)
    ensures StatusSlot([status, RULE_LINE] + lines) == Some(status)
  {
    hide AtColumn0, IsRule, LastAtColumn0, LastRule;
    var above, bottom := [status, RULE_LINE], LastRule(lines).value;
    var all := above + lines;
    OnlyStatus(status);
    LastRuleOfPrefixed(above, lines);
    NoRuleOfPrefixed(above, lines[..bottom]);
    assert all[..2 + bottom] == above + lines[..bottom] && all[..1] == [status];
  }

  lemma {:induction false} FilledAlone(lines: seq<string>, status: string)
    requires TopRule(lines).Some? && StatusSlot(lines).None? && AtColumn0(status)
    ensures StatusSlot([status] + lines) == Some(status)
  {
    hide AtColumn0, IsRule, LastAtColumn0, LastRule, TopRule;
    var top := TopRule(lines).value;
    OnlyStatus(status);
    TopRuleOfPrefixed([status], lines);
    NoneAtColumn0OfPrefixed([status], lines[..top]);
    assert ([status] + lines)[..1 + top] == [status] + lines[..top];
  }

  lemma {:induction false} SlotFilled(lines: seq<string>, status: string)
    requires StatusSlot(lines).None? && AtColumn0(status)
    ensures StatusSlot(SlotFiller(lines, status) + lines) == Some(status)
  {
    hide AtColumn0, StatusSlot, LastRule, TopRule;
    if LastRule(lines).None? {
      FilledWithRules(lines, status);
    } else if TopRule(lines).None? {
      FilledWithRule(lines, status);
    } else {
      FilledAlone(lines, status);
    }
  }

  lemma {:induction false} AStatusAboveIsSeen(lines: seq<string>, working: string -> bool)
    requires CountNonBlank(lines) >= MUSE_FOOTER_LINES && !AnyFooter(Trailing(lines, MUSE_FOOTER_LINES))
    requires StatusSlot(lines).None? && SomeWorkingLine(working)
    ensures !MuseIndependent(lines, working)
  {
    var status :| AtColumn0(status) && working(status);
    var above := SlotFiller(lines, status);
    SlotFilled(lines, status);
    TrailingOfPrefixed(above, lines, MUSE_FOOTER_LINES);
    var footer := Trailing(lines, MUSE_FOOTER_LINES);
    assert footer + [] == footer;
    assert MuseState(above + lines, working) != MuseState(lines, working);
  }

  // ---- whole panes --------------------------------------------------------------------------

  datatype Harness = ClaudePane(live: string -> bool) | MusePane(working: string -> bool)

  /** `content_state` for the two harnesses above: strip, split into lines, read the bottom. */
  function ContentState(h: Harness, pane: string): State {
    match h
    case ClaudePane(live) => ClaudeState(Lines(Strip(pane)), live)
    case MusePane(working) => MuseState(Lines(Strip(pane)), working)
  }

  ghost predicate Anchored(h: Harness, lines: seq<string>) {
    match h
    case ClaudePane(_) =>
      CountNonBlank(lines) >= CLAUDE_WINDOW || FirstAttention(Trailing(lines, CLAUDE_WINDOW)).Some?
    case MusePane(working) => MuseAnchored(lines, working)
  }

  /** From coloured bytes to state: whole coloured lines above an anchored pane change nothing. */
  lemma ColouredTranscriptIndependence(h: Harness, above: seq<Segment>, pane: seq<Segment>)
    requires (forall g | g in above + pane :: Proper(g)) && Quiet(above + pane)
    requires WholeLines(Uncoloured(above)) && Anchored(h, Lines(Uncoloured(pane)))
    ensures ContentState(h, Render(above) + Render(pane)) == ContentState(h, Render(pane))
  {
    RenderOfPrefixed(above, pane);
    assert forall g | g in pane :: g in above + pane;
    StripRestores(above + pane);
    QuietEnd(above, pane);
    StripRestores(pane);
    LinesOfPrefixed(Uncoloured(above), Uncoloured(pane));
    var top, bottom := Lines(Uncoloured(above)), Lines(Uncoloured(pane));
    match h
    case ClaudePane(live) => NothingAboveMatters(top, bottom, live);
    case MusePane(working) => NothingAboveMuseMatters(top, bottom, working);
  }

  // ---- the states, told from the lines at the bottom of the pane --------------------------------

  predicate Spaces(s: string) {
    forall i | 0 <= i < |s| :: IsSpace(s[i])
  }

  /** A first prompt sign with a number behind it: an entry of a menu. */
  ghost predicate Offers(line: string) {
    exists before, gap, digit, after ::
      line == before + [PROMPT] + gap + [digit] + after && PROMPT !in before && Spaces(gap) && IsDigit(digit)
  }

  ghost predicate Approves(line: string) {
    Says(line, "Esc to cancel") || Says(line, "No, and tell Claude what to do differently")
  }

  lemma {:induction false} TrimStartIs(s: string) returns (gap: string)
    ensures Spaces(gap) && s == gap + TrimStart(s) && (TrimStart(s) != [] ==> !IsSpace(TrimStart(s)[0]))
    decreases |s|
  {
    gap := [];
    if s != [] && IsSpace(s[0]) {
      var rest := TrimStartIs(s[1..]);
      gap := [s[0]] + rest;
    }
  }

  lemma {:induction false} TrimStartOf(gap: string, rest: string)
    requires Spaces(gap) && rest != [] && !IsSpace(rest[0])
    ensures TrimStart(gap + rest) == rest
    decreases |gap|
  {
    if gap == [] {
      assert gap + rest == rest;
    } else {
      assert (gap + rest)[1..] == gap[1..] + rest;
      TrimStartOf(gap[1..], rest);
    }
  }

  lemma {:induction false} MenuIs(line: string)
    ensures IsMenu(line) <==> Offers(line)
  {
    if IsMenu(line) {
      MenuOffers(line);
    }
    if before, gap, digit, after :|
      line == before + [PROMPT] + gap + [digit] + after && PROMPT !in before && Spaces(gap) && IsDigit(digit) {
      OfferIsMenu(line, before, gap, digit, after);
    }
  }

  lemma {:induction false} MenuOffers(line: string)
    requires IsMenu(line)
    ensures Offers(line)
  {
    hide TrimStart;
    var pos := Find(line, PROMPT, 0);
    var tail := line[pos + 1..];
    var gap := TrimStartIs(tail);
    var rest := TrimStart(tail);
    assert PROMPT !in line[..pos];
    assert line == line[..pos] + [PROMPT] + gap + [rest[0]] + rest[1..];
  }

  lemma {:induction false} OfferIsMenu(line: string, before: string, gap: string, digit: char, after: string)
    requires line == before + [PROMPT] + gap + [digit] + after && PROMPT !in before && Spaces(gap) && IsDigit(digit)
    ensures IsMenu(line)
  {
    hide TrimStart, Find, Spaces;
    var rest := [digit] + after;
    FindFirst(line, before, gap + rest);
    TrimStartOf(gap, rest);
    assert line[|before| + 1..] == gap + rest;
  }

  lemma {:induction false} FindFirst(line: string, before: string, behind: string)
    requires PROMPT !in before && |line| == |before| + 1 + |behind| && line[..|before|] == before && line[|before|] == PROMPT
    ensures Find(line, PROMPT, 0) == |before|
  {
    var pos := Find(line, PROMPT, 0);
    assert forall i | 0 <= i < |before| :: line[i] == before[i];
  }

  lemma {:induction false} AttentionIs(line: string)
    ensures Attention(line) == (if Approves(line) then Some(AgentStatus.AgentState.WaitingForApproval)
                                else if Offers(line) then Some(AgentStatus.AgentState.WaitingForInput) else None)
  {
    hide Contains, IsMenu, Says, Offers;
    ContainsIs(line, "Esc to cancel");
    ContainsIs(line, "No, and tell Claude what to do differently");
    MenuIs(line);
  }

  /** Line `k` is among the last `n` lines that are not blank. */
  predicate Low(lines: seq<string>, n: nat, k: int) {
    0 <= k < |lines| && !IsBlank(lines[k]) && CountNonBlank(lines[k..]) <= n
  }

  /** Line `k` is the lowest of those that `p` accepts. */
  ghost predicate Lowest(lines: seq<string>, n: nat, p: string -> bool, k: int) {
    && Low(lines, n, k) && p(lines[k])
    && forall j | k < j && Low(lines, n, j) :: !p(lines[j])
  }

  function FirstIn(window: seq<string>, p: string -> bool): Option<string> {
    if window == [] then None else if p(window[0]) then Some(window[0]) else FirstIn(window[1..], p)
  }

  lemma {:induction false} LowAbove(lines: seq<string>, n: nat, k: nat)
    requires lines != [] && k < |lines| - 1
    ensures var m := if IsBlank(lines[|lines| - 1]) then n else n - 1;
            Low(lines, n, k) <==> m >= 0 && Low(lines[..|lines| - 1], m, k)
  {
    var above := lines[..|lines| - 1];
    assert lines[k..][..|lines[k..]| - 1] == above[k..];
    if !IsBlank(lines[k]) {
      NonBlankCounts(above, k);
    }
  }

  lemma {:induction false} NonBlankCounts(lines: seq<string>, k: nat)
    requires k < |lines| && !IsBlank(lines[k])
    ensures CountNonBlank(lines[k..]) >= 1
    decreases |lines|
  {
    var tail := lines[k..];
    if k < |lines| - 1 {
      assert tail[..|tail| - 1] == lines[..|lines| - 1][k..];
      NonBlankCounts(lines[..|lines| - 1], k);
    }
  }

  /** Searching the window bottom first finds the lowest line that is accepted. */
  lemma {:induction false} LowestOf(lines: seq<string>, n: nat, p: string -> bool) returns (k: Option<nat>)
    ensures k.None? ==> FirstIn(Trailing(lines, n), p) == None && forall j | Low(lines, n, j) :: !p(lines[j])
    ensures k.Some? ==> Lowest(lines, n, p, k.value) && FirstIn(Trailing(lines, n), p) == Some(lines[k.value])
    decreases |lines|
  {
    if lines == [] {
      k := None;
    } else if n == 0 {
      k := None;
      forall j | 0 <= j < |lines| && !IsBlank(lines[j]) ensures CountNonBlank(lines[j..]) >= 1 {
        NonBlankCounts(lines, j);
      }
    } else {
      var m := |lines| - 1;
      var last, above := lines[m], lines[..m];
      forall j | 0 <= j < m ensures Low(lines, n, j) <==> Low(above, if IsBlank(last) then n else n - 1, j) {
        LowAbove(lines, n, j);
      }
      assert lines[m..] == [last] && [last][..0] == [];
      if !IsBlank(last) && p(last) {
        k := Some(m);
      } else {
        k := LowestOf(above, if IsBlank(last) then n else n - 1, p);
        assert !IsBlank(last) ==> Trailing(lines, n)[1..] == Trailing(above, n - 1);
      }
    }
  }

  /** Some low line is accepted. */
  ghost predicate AnyLow(lines: seq<string>, n: nat, p: string -> bool) {
    exists k :: Low(lines, n, k) && p(lines[k])
  }

  lemma {:induction false} AnyLowIs(lines: seq<string>, n: nat, p: string -> bool)
    ensures AnyLow(lines, n, p) <==> exists line | line in Trailing(lines, n) :: p(line)
  {
    var k := LowestOf(lines, n, p);
    FirstInIs(Trailing(lines, n), p);
  }

  lemma {:induction false} FirstInIs(window: seq<string>, p: string -> bool)
    ensures FirstIn(window, p).Some? <==> exists line | line in window :: p(line)
    ensures FirstIn(window, p).Some? ==> p(FirstIn(window, p).value)
  {
    if window != [] {
      FirstInIs(window[1..], p);
      assert window == [window[0]] + window[1..];
    }
  }

  lemma {:induction false} FirstAttentionIs(window: seq<string>, asks: string -> bool)
    requires forall line :: asks(line) <==> Attention(line).Some?
    ensures FirstAttention(window) == (match FirstIn(window, asks) case Some(line) => Attention(line) case None => None)
  {
    if window != [] {
      FirstAttentionIs(window[1..], asks);
    }
  }

  lemma {:induction false} FirstLiveIs(window: seq<string>, live: string -> bool)
    ensures FirstLive(window, live) == FirstIn(window, live)
  {
    if window != [] {
      FirstLiveIs(window[1..], live);
    }
  }

  /** The words alone on the line, with nothing but white space around them. */
  ghost predicate Alone(line: string, words: string) {
    exists before, after :: Spaces(before) && Spaces(after) && line == before + words + after
  }

  /** The composer's empty prompt. */
  ghost predicate BarePrompt(line: string) {
    Alone(line, "\U{276F}")
  }

  /** A spinner with words that trail off, and no status behind them. */
  ghost predicate SpinsBare(line: string) {
    exists glyph, words, dots ::
      glyph in "\U{273D}\U{273B}\U{2736}\U{2733}\U{2722}\U{B7}" && (dots == "\U{2026}" || dots == "...")
      && Alone(line, [glyph] + words + dots)
  }

  lemma {:induction false} TrimEndIs(s: string) returns (gap: string)
    ensures Spaces(gap) && s == TrimEnd(s) + gap && (TrimEnd(s) != [] ==> !IsSpace(TrimEnd(s)[|TrimEnd(s)| - 1]))
    ensures TrimEnd(s) <= s
    decreases |s|
  {
    gap := [];
    if s != [] && IsSpace(s[|s| - 1]) {
      var rest := TrimEndIs(s[..|s| - 1]);
      gap := rest + [s[|s| - 1]];
      assert s == s[..|s| - 1] + [s[|s| - 1]];
    }
  }

  lemma {:induction false} TrimEndOf(words: string, gap: string)
    requires Spaces(gap) && words != [] && !IsSpace(words[|words| - 1])
    ensures TrimEnd(words + gap) == words
    decreases |gap|
  {
    var s := words + gap;
    if gap == [] {
      assert s == words;
    } else {
      assert s[..|s| - 1] == words + gap[..|gap| - 1] && s[|s| - 1] == gap[|gap| - 1];
      TrimEndOf(words, gap[..|gap| - 1]);
    }
  }

  /** Trimming leaves the words exactly of a line that has them alone. */
  lemma {:induction false} TrimIs(line: string, words: string)
    requires words != [] && !IsSpace(words[0]) && !IsSpace(words[|words| - 1])
    ensures Trim(line) == words <==> Alone(line, words)
  {
    hide TrimStart, TrimEnd, IsSpace;
    var before := TrimStartIs(line);
    var after := TrimEndIs(TrimStart(line));
    if Trim(line) == words {
      assert line == before + words + after;
    }
    if before, after :| Spaces(before) && Spaces(after) && line == before + words + after {
      assert line == before + (words + after);
      TrimStartOf(before, words + after);
      TrimEndOf(words, after);
    }
  }

  lemma BarePromptIs(line: string)
    ensures Trim(line) == [PROMPT] <==> BarePrompt(line)
  {
    hide Trim;
    TrimIs(line, [PROMPT]);
  }

  lemma {:induction false} SpinnerWords(t: string) returns (words: string, dots: string)
    requires t != [] && IsSpinnerGlyph(t[0]) && (t[|t| - 1] == ELLIPSIS || EndsWith(t, "..."))
    ensures (dots == "\U{2026}" || dots == "...") && t == [t[0]] + words + dots
  {
    if t[|t| - 1] == ELLIPSIS {
      words, dots := t[1..|t| - 1], [ELLIPSIS];
    } else {
      assert t[|t| - 3..] == "..." && t[|t| - 3] == '.';
      words, dots := t[1..|t| - 3], "...";
    }
  }

  lemma {:induction false} BareSpinnerIs(line: string)
    ensures IsBareSpinner(line) <==> SpinsBare(line)
  {
    hide Trim, Alone;
    var t := Trim(line);
    if IsBareSpinner(line) {
      var words, dots := SpinnerWords(t);
      TrimIs(line, t);
      assert Alone(line, [t[0]] + words + dots);
    }
    if glyph, words, dots :|
      glyph in "\U{273D}\U{273B}\U{2736}\U{2733}\U{2722}\U{B7}" && (dots == "\U{2026}" || dots == "...")
      && Alone(line, [glyph] + words + dots) {
      var whole := [glyph] + words + dots;
      assert whole[|whole| - |dots|..] == dots && whole[|whole| - 1] == dots[|dots| - 1];
      TrimIs(line, whole);
    }
  }

  ghost predicate Asks(line: string) {
    Approves(line) || Offers(line)
  }

  /** What live status words stand for, in capitals or not. */
  ghost predicate Means(line: string, state: State) {
    var compacts := SaysInAnyCase(line, "compact");
    var retries := SaysInAnyCase(line, "retry") || SaysInAnyCase(line, "reconnect");
    match state
    case Compacting => compacts
    case Retrying => !compacts && retries
    case Working => !compacts && !retries
    case _ => false
  }

  lemma {:induction false} LowerAt(s: string)
    ensures |Lower(s)| == |s|
    ensures forall i | 0 <= i < |s| :: Lower(s)[i] == if 'A' <= s[i] <= 'Z' then (s[i] as int + 32) as char else s[i]
  {
    if s != [] {
      LowerAt(s[1..]);
    }
  }

  lemma {:induction false} LowerFinds(line: string, word: string, before: string, after: string)
    requires Lower(line) == before + word + after
    requires forall i | 0 <= i < |word| :: 'a' <= word[i] <= 'z'
    ensures SaysInAnyCase(line, word)
  {
    hide Lower;
    LowerAt(line);
    var k := |before|;
    var spelled := line[k..k + |word|];
    forall i | 0 <= i < |word|
      ensures SameLetter(spelled[i], word[i])
    {
      assert Lower(line)[k + i] == word[i];
    }
    assert line == line[..k] + spelled + line[k + |word|..];
  }

  lemma {:induction false} FindsLower(before: string, spelled: string, after: string, word: string)
    requires SpelledAs(spelled, word)
    requires forall i | 0 <= i < |word| :: 'a' <= word[i] <= 'z'
    ensures Says(Lower(before + spelled + after), word)
  {
    hide Lower;
    var line, k := before + spelled + after, |before|;
    LowerAt(line);
    forall i | 0 <= i < |word|
      ensures Lower(line)[k + i] == word[i]
    {
      assert line[k + i] == spelled[i] && SameLetter(spelled[i], word[i]);
    }
    var low := Lower(line);
    assert low == low[..k] + word + low[k + |word|..];
  }

  /** Looking for a word in the lower-case line finds it in any case. */
  lemma {:induction false} LowerIs(line: string, word: string)
    requires forall i | 0 <= i < |word| :: 'a' <= word[i] <= 'z'
    ensures Contains(Lower(line), word) <==> SaysInAnyCase(line, word)
  {
    hide Lower, Contains;
    ContainsIs(Lower(line), word);
    if before, after :| Lower(line) == before + word + after {
      LowerFinds(line, word, before, after);
    }
    if before, spelled, after :| SpelledAs(spelled, word) && line == before + spelled + after {
      FindsLower(before, spelled, after, word);
    }
  }

  /** What a live line means is what it says. */
  lemma {:induction false} LiveActivityIs(line: string)
    ensures forall state :: Means(line, state) <==> LiveActivity(line) == state
  {
    hide Lower, Contains, SaysInAnyCase;
    LowerIs(line, "compact");
    LowerIs(line, "retry");
    LowerIs(line, "reconnect");
  }

  /**
   The state of a Claude pane, from its last ten lines that are not blank. The lowest line that asks
   for the user decides how it waits. If none asks, the lowest live status line decides what it is
   busy with. If there is none either, it is idle when there is a bare prompt and no bare spinner.
   Nothing else is known.
   */
  lemma {:induction false} ClaudeStateIs(lines: seq<string>, live: string -> bool)
    ensures var state := ClaudeState(lines, live);
            && (state.WaitingForApproval? <==> exists k :: Lowest(lines, 10, Asks, k) && Approves(lines[k]))
            && (state.WaitingForInput? <==> exists k :: Lowest(lines, 10, Asks, k) && !Approves(lines[k]))
            && (forall busy: State | busy.Working? || busy.Compacting? || busy.Retrying? ::
                  state == busy <==>
                  !AnyLow(lines, 10, Asks) && exists k :: Lowest(lines, 10, live, k) && Means(lines[k], busy))
            && (state.Idle? <==> !AnyLow(lines, 10, Asks) && !AnyLow(lines, 10, live)
                                 && !AnyLow(lines, 10, SpinsBare) && AnyLow(lines, 10, BarePrompt))
            && (state.WaitingForApproval? || state.WaitingForInput? || state.Working? || state.Compacting?
                || state.Retrying? || state.Idle? || state.Unknown?)
  {
    hide Approves, Offers, Attention, IsBareSpinner, SpinsBare, BarePrompt, LiveActivity, SaysInAnyCase, Trim;
    forall line
      ensures Asks(line) <==> Attention(line).Some?
      ensures SpinsBare(line) <==> IsBareSpinner(line)
      ensures BarePrompt(line) <==> Trim(line) == [PROMPT]
    {
      AttentionIs(line);
      BareSpinnerIs(line);
      BarePromptIs(line);
    }
    var window := Trailing(lines, 10);
    FirstAttentionIs(window, Asks);
    FirstLiveIs(window, live);
    AnyLowIs(lines, 10, SpinsBare);
    AnyLowIs(lines, 10, BarePrompt);
    var asking := LowestOf(lines, 10, Asks);
    var busy := LowestOf(lines, 10, live);
    if busy.Some? {
      LiveActivityIs(lines[busy.value]);
      assert Means(lines[busy.value], LiveActivity(lines[busy.value]));
    }
    if asking.Some? {
      AttentionIs(lines[asking.value]);
    }
  }

  /**
   The state of an OpenCode pane: it waits if the permission overlay is anywhere on it; else it works
   if one of its last three lines that are not blank shows the interrupt hint; else it is idle after
   a completed turn.
   */
  lemma {:induction false} OpenCodeStateIs(content: string, completed: string -> bool)
    ensures var state := OpenCodeState(content, completed);
            && (state.WaitingForInput? <==> Says(content, "Permission required"))
            && (state.Working? <==> !Says(content, "Permission required") && AnyLow(Lines(content), 3, ShowsInterrupt))
            && (state.Idle? <==> !Says(content, "Permission required") && !AnyLow(Lines(content), 3, ShowsInterrupt)
                                 && completed(content))
            && (state.WaitingForInput? || state.Working? || state.Idle? || state.Unknown?)
  {
    hide Contains, Lines, Trailing, Low;
    ContainsIs(content, "Permission required");
    forall line ensures Contains(line, "esc interrupt") <==> ShowsInterrupt(line) {
      ContainsIs(line, "esc interrupt");
    }
    AnyLowIs(Lines(content), 3, ShowsInterrupt);
  }

  ghost predicate ShowsInterrupt(line: string) {
    Says(line, "esc interrupt")
  }

  /** A horizontal rule, and nothing else on the line. */
  ghost predicate DrawsRule(line: string) {
    exists dashes :: dashes != "" && (forall c | c in dashes :: c == '\U{2500}') && Alone(line, dashes)
  }

  /** Something in the first column, other than the corner of a tree. */
  predicate StartsAtLeft(line: string) {
    line != "" && !IsSpace(line[0]) && line[0] != '\U{2514}'
  }

  lemma {:induction false} DrawsRuleIff(line: string)
    ensures IsRule(line) <==> DrawsRule(line)
  {
    hide Trim, Alone;
    if IsRule(line) {
      TrimIs(line, Trim(line));
    }
    if dashes :| dashes != "" && (forall c | c in dashes :: c == '\U{2500}') && Alone(line, dashes) {
      assert forall i | 0 <= i < |dashes| :: dashes[i] in dashes;
      TrimIs(line, dashes);
    }
  }

  /** Two rules with no rule between them or below them, and the lowest line at column 0 above both. */
  ghost predicate SlotAt(lines: seq<string>, i: int, top: int, bottom: int) {
    && 0 <= i < top < bottom < |lines|
    && StartsAtLeft(lines[i]) && DrawsRule(lines[top]) && DrawsRule(lines[bottom])
    && (forall j | i < j < top :: !StartsAtLeft(lines[j]))
    && (forall j | top < j < |lines| && j != bottom :: !DrawsRule(lines[j]))
  }

  ghost predicate SlotShows(lines: seq<string>, status: string) {
    exists i, top, bottom :: SlotAt(lines, i, top, bottom) && lines[i] == status
  }

  /** The same by the tests of the detector. */
  ghost predicate SlotTested(lines: seq<string>, i: int, top: int, bottom: int) {
    && 0 <= i < top < bottom < |lines|
    && AtColumn0(lines[i]) && IsRule(lines[top]) && IsRule(lines[bottom])
    && (forall j | i < j < top :: !AtColumn0(lines[j]))
    && (forall j | top < j < |lines| && j != bottom :: !IsRule(lines[j]))
  }

  lemma {:induction false} SlotTestedIff(lines: seq<string>, i: int, top: int, bottom: int)
    ensures SlotTested(lines, i, top, bottom) <==> SlotAt(lines, i, top, bottom)
  {
    forall j | 0 <= j < |lines|
      ensures IsRule(lines[j]) <==> DrawsRule(lines[j])
      ensures AtColumn0(lines[j]) <==> StartsAtLeft(lines[j])
    {
      DrawsRuleIff(lines[j]);
    }
    hide IsRule, AtColumn0, DrawsRule, StartsAtLeft;
  }

  lemma {:induction false} LastRuleIs(lines: seq<string>)
    ensures LastRule(lines).None? ==> forall j | 0 <= j < |lines| :: !IsRule(lines[j])
    ensures LastRule(lines).Some? ==>
              IsRule(lines[LastRule(lines).value]) && forall j | LastRule(lines).value < j < |lines| :: !IsRule(lines[j])
  {
    if lines != [] {
      LastRuleIs(lines[..|lines| - 1]);
    }
  }

  lemma {:induction false} LastAtColumn0Is(lines: seq<string>) returns (i: Option<nat>)
    ensures i.None? ==> LastAtColumn0(lines).None? && forall j | 0 <= j < |lines| :: !AtColumn0(lines[j])
    ensures i.Some? ==>
              i.value < |lines| && LastAtColumn0(lines) == Some(lines[i.value]) && AtColumn0(lines[i.value])
              && forall j | i.value < j < |lines| :: !AtColumn0(lines[j])
  {
    if lines == [] {
      i := None;
    } else if AtColumn0(lines[|lines| - 1]) {
      i := Some(|lines| - 1);
    } else {
      i := LastAtColumn0Is(lines[..|lines| - 1]);
    }
  }

  lemma {:induction false} StatusSlotTested(lines: seq<string>, status: string)
    ensures StatusSlot(lines) == Some(status) <==>
            exists i, top, bottom :: SlotTested(lines, i, top, bottom) && lines[i] == status
  {
    hide LastRule, LastAtColumn0, IsRule, AtColumn0;
    LastRuleIs(lines);
    if LastRule(lines).Some? {
      var bottom := LastRule(lines).value;
      LastRuleIs(lines[..bottom]);
      if TopRule(lines).Some? {
        var top := TopRule(lines).value;
        var i := LastAtColumn0Is(lines[..top]);
        if i.Some? {
          assert SlotTested(lines, i.value, top, bottom);
        }
      }
    }
  }

  /** The status slot of a Muse pane is the lowest line at column 0 above the upper of its last two rules. */
  lemma {:induction false} StatusSlotIs(lines: seq<string>, status: string)
    ensures StatusSlot(lines) == Some(status) <==> SlotShows(lines, status)
  {
    hide StatusSlot, SlotTested, SlotAt;
    StatusSlotTested(lines, status);
    forall i: int, top: int, bottom: int
      ensures SlotTested(lines, i, top, bottom) <==> SlotAt(lines, i, top, bottom)
    {
      SlotTestedIff(lines, i, top, bottom);
    }
  }

  ghost predicate AsksMuse(line: string) {
    || Says(line, "Change approval defaults in /permissions")
    || Says(line, "Enter to select \U{B7} \U{2191}/\U{2193} to move")
    || Says(line, "Use Up/Down or 1/2, then Enter.")
  }

  /** The state of a Muse pane: waiting, working or idle, from its last lines and its status slot. */
  lemma {:induction false} MuseStateIs(lines: seq<string>, working: string -> bool)
    ensures var state := MuseState(lines, working);
            && (state.WaitingForInput? <==> AnyLow(lines, 8, AsksMuse))
            && (state.Working? <==> !AnyLow(lines, 8, AsksMuse)
                                    && exists status :: SlotShows(lines, status) && working(status))
            && (state.WaitingForInput? || state.Working? || state.Idle?)
  {
    hide HasMuseFooter, AsksMuse, Trailing, StatusSlot, SlotShows, Low;
    forall line ensures HasMuseFooter(line) <==> AsksMuse(line) {
      MuseFooterIs(line);
    }
    AnyLowIs(lines, 8, AsksMuse);
    forall status ensures StatusSlot(lines) == Some(status) <==> SlotShows(lines, status) {
      StatusSlotIs(lines, status);
    }
  }

  lemma {:induction false} MuseFooterIs(line: string)
    ensures HasMuseFooter(line) <==> AsksMuse(line)
  {
    hide Contains, Says;
    ContainsIs(line, "Change approval defaults in /permissions");
    ContainsIs(line, "Enter to select \U{B7} \U{2191}/\U{2193} to move");
    ContainsIs(line, "Use Up/Down or 1/2, then Enter.");
  }

  // ---- splitting into lines -----------------------------------------------------------------------

  /** A line and how it ends: with a newline, or a carriage return and a newline. */
  datatype Ended = Ended(line: string, carriage: bool)

  predicate OneLine(e: Ended) {
    '\n' !in e.line && (!e.carriage ==> e.line == [] || e.line[|e.line| - 1] != '\r')
  }

  function EndedText(e: Ended): string {
    e.line + (if e.carriage then ['\r', '\n'] else ['\n'])
  }

  function Written(es: seq<Ended>): string {
    if es == [] then [] else EndedText(es[0]) + Written(es[1..])
  }

  function LinesWritten(es: seq<Ended>): seq<string> {
    if es == [] then [] else [es[0].line] + LinesWritten(es[1..])
  }

  /** Lines come back as they were written, whichever way they end; a last one may not end at all. */
  lemma {:induction false} LinesRestore(es: seq<Ended>, last: string)
    requires forall e | e in es :: OneLine(e)
    requires '\n' !in last
    ensures Lines(Written(es) + last) == LinesWritten(es) + (if last == [] then [] else [last])
  {
    if es == [] {
      assert Written(es) + last == last;
      assert Find(last, '\n', 0) == |last|;
    } else {
      var first, rest := EndedText(es[0]), Written(es[1..]) + last;
      assert Written(es) + last == first + rest;
      OneLineIs(es[0]);
      LinesOfPrefixed(first, rest);
      LinesRestore(es[1..], last);
    }
  }

  lemma {:induction false} OneLineIs(e: Ended)
    requires OneLine(e)
    ensures WholeLines(EndedText(e)) && Lines(EndedText(e)) == [e.line]
  {
    var text := EndedText(e);
    var i := Find(text, '\n', 0);
    assert text[|text| - 1] == '\n';
    assert forall k | 0 <= k < |e.line| :: text[k] == e.line[k];
    assert i == |text| - 1;
    assert text[i + 1..] == [];
    assert WithoutCr(text[..i]) == e.line;
  }
}
