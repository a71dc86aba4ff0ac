/**
 `agent.rs`, command lines: which harness a program string names, and the command that resumes its
 previous session. A command is judged by its whitespace-separated tokens.
 */
module ResumeCommand {
  import opened Wrappers
  import opened Strings
  import opened PaneText

  datatype AgentKind = Claude | Codex | OpenCode | Omp | Muse | Unknown

  const KNOWN := [Claude, Codex, OpenCode, Omp, Muse]

  function BinaryName(kind: AgentKind): Option<string> {
    match kind
    case Claude => Some("claude")
    case Codex => Some("codex")
    case OpenCode => Some("opencode")
    case Omp => Some("omp")
    case Muse => Some("muse-code")
    case Unknown => None
  }

  // ---- tokens -------------------------------------------------------------------------------

  /** The index of the first whitespace character, or the length. */
  function WordEnd(s: string): (n: nat)
    ensures n <= |s|
    ensures n < |s| ==> IsSpace(s[n])
    ensures forall i | 0 <= i < n :: !IsSpace(s[i])
  {
    if s == [] || IsSpace(s[0]) then 0 else 1 + WordEnd(s[1..])
  }

  function Tokens(s: string): seq<string>
    decreases |s|
  {
    if s == [] then []
    else if IsSpace(s[0]) then Tokens(s[1..])
    else [s[..WordEnd(s)]] + Tokens(s[WordEnd(s)..])
  }

  lemma {:induction false} WordEndAt(s: string, n: nat)
    requires n <= |s| && forall i | 0 <= i < n :: !IsSpace(s[i])
    requires n < |s| ==> IsSpace(s[n])
    ensures WordEnd(s) == n
  {
  }

  lemma {:induction false} TokensOfJoined(a: string, c: char, b: string)
    requires IsSpace(c)
    ensures Tokens(a + [c] + b) == Tokens(a) + Tokens(b)
    decreases |a|
  {
    var s := a + [c] + b;
    if a == [] {
      assert s[0] == c && s[1..] == b;
    } else if IsSpace(a[0]) {
      assert s[1..] == a[1..] + [c] + b;
      TokensOfJoined(a[1..], c, b);
    } else {
      var n := WordEnd(a);
      assert forall i | 0 <= i < |a| :: s[i] == a[i];
      assert s[|a|] == c;
      WordEndAt(s, n);
      assert s[..n] == a[..n] && s[n..] == a[n..] + [c] + b;
      TokensOfJoined(a[n..], c, b);
      assert ([a[..n]] + Tokens(a[n..])) + Tokens(b) == [a[..n]] + (Tokens(a[n..]) + Tokens(b));
    }
  }

  lemma {:induction false} TokenOfWord(word: string)
    requires word != [] && forall i | 0 <= i < |word| :: !IsSpace(word[i])
    ensures Tokens(word) == [word]
  {
    WordEndAt(word, |word|);
    assert word[..|word|] == word && word[|word|..] == [];
  }

  // ---- the harness a program names ----------------------------------------------------------

  function LowerChar(c: char): char {
    if 'A' <= c <= 'Z' then (c as int + 32) as char else c
  }

  predicate EqIgnoreCase(a: string, b: string) {
    |a| == |b| && forall i | 0 <= i < |a| :: LowerChar(a[i]) == LowerChar(b[i])
  }

  /** What follows the last slash. */
  function BaseName(token: string): string {
    if token == [] || token[|token| - 1] == '/' then []
    else BaseName(token[..|token| - 1]) + [token[|token| - 1]]
  }

  function FirstNamed(kinds: seq<AgentKind>, name: string): AgentKind {
    if kinds == [] then Unknown
    else if BinaryName(kinds[0]).Some? && EqIgnoreCase(name, BinaryName(kinds[0]).value) then kinds[0]
    else FirstNamed(kinds[1..], name)
  }

  function KindOf(tokens: seq<string>): AgentKind {
    FirstNamed(KNOWN, if tokens == [] then [] else BaseName(tokens[0]))
  }

  /** `from_program`: the harness is named by the first token, whatever its path prefix. */
  function FromProgram(program: string): AgentKind {
    KindOf(Tokens(program))
  }

  lemma {:induction false} FirstDecides(ts: seq<string>, us: seq<string>)
    requires ts != [] && us != [] && ts[0] == us[0]
    ensures KindOf(ts) == KindOf(us)
  {
  }

  /** The token is this name behind a directory, or behind nothing. */
  predicate InDirectory(token: string, dir: string, name: string) {
    && token == dir + name
    && (dir == "" || dir[|dir| - 1] == '/')
    && '/' !in name
  }

  /** The first token is this binary, in any directory and with its letters in any case. */
  ghost predicate Runs(program: string, binary: string) {
    && Tokens(program) != []
    && exists dir, name :: InDirectory(Tokens(program)[0], dir, name) && SpelledAs(name, binary)
  }

  lemma {:induction false} BaseNameIs(token: string, dir: string, name: string)
    requires InDirectory(token, dir, name)
    ensures BaseName(token) == name
    decreases |name|
  {
    if name != [] {
      var k := |name| - 1;
      assert token[..|token| - 1] == dir + name[..k] && token[|token| - 1] == name[k];
      BaseNameIs(token[..|token| - 1], dir, name[..k]);
    }
  }

  lemma {:induction false} BaseNameInDirectory(token: string) returns (dir: string)
    ensures InDirectory(token, dir, BaseName(token))
  {
    if token == [] || token[|token| - 1] == '/' {
      dir := token;
      assert token == token + [];
    } else {
      dir := BaseNameInDirectory(token[..|token| - 1]);
    }
  }

  lemma {:induction false} SpelledIff(name: string, kind: AgentKind)
    requires kind != Unknown
    ensures EqIgnoreCase(name, BinaryName(kind).value) <==> SpelledAs(name, BinaryName(kind).value)
  {
    var binary := BinaryName(kind).value;
    assert forall i | 0 <= i < |binary| :: 'a' <= binary[i] <= 'z' || binary[i] == '-';
    if |name| == |binary| {
      assert forall i | 0 <= i < |name| ::
        (LowerChar(name[i]) == LowerChar(binary[i]) <==> SameLetter(name[i], binary[i]));
    }
  }

  lemma {:induction false} FirstNamedMatches(kinds: seq<AgentKind>, name: string)
    requires forall k | k in kinds :: BinaryName(k).Some?
    ensures var first := FirstNamed(kinds, name);
            if first == Unknown then forall k | k in kinds :: !EqIgnoreCase(name, BinaryName(k).value)
            else first in kinds && EqIgnoreCase(name, BinaryName(first).value)
  {
    if kinds != [] {
      FirstNamedMatches(kinds[1..], name);
      assert forall k | k in kinds :: k == kinds[0] || k in kinds[1..];
    }
  }

  /** The names have different lengths, so that a name is at most one harness's. */
  lemma {:induction false} FirstNamedIff(name: string, kind: AgentKind)
    requires kind != Unknown
    ensures FirstNamed(KNOWN, name) == kind <==> EqIgnoreCase(name, BinaryName(kind).value)
  {
    assert |"claude"| == 6 && |"codex"| == 5 && |"opencode"| == 8 && |"omp"| == 3 && |"muse-code"| == 9;
    assert kind in KNOWN;
    FirstNamedMatches(KNOWN, name);
  }

  lemma {:induction false} NamedIff(program: string, kind: AgentKind)
    requires kind != Unknown
    ensures FromProgram(program) == kind <==> Runs(program, BinaryName(kind).value)
  {
    var ts, binary := Tokens(program), BinaryName(kind).value;
    var base := if ts == [] then [] else BaseName(ts[0]);
    FirstNamedIff(base, kind);
    SpelledIff(base, kind);
    if ts != [] {
      var inside := BaseNameInDirectory(ts[0]);
      if Runs(program, binary) {
        var dir, name :| InDirectory(ts[0], dir, name) && SpelledAs(name, binary);
        BaseNameIs(ts[0], dir, name);
      }
    }
  }

  /** What a program names, for every program; it is unknown exactly when it runs none of these. */
  lemma {:induction false} HarnessIs(program: string)
    ensures FromProgram(program) == Claude <==> Runs(program, "claude")
    ensures FromProgram(program) == Codex <==> Runs(program, "codex")
    ensures FromProgram(program) == OpenCode <==> Runs(program, "opencode")
    ensures FromProgram(program) == Omp <==> Runs(program, "omp")
    ensures FromProgram(program) == Muse <==> Runs(program, "muse-code")
  {
    NamedIff(program, Claude);
    NamedIff(program, Codex);
    NamedIff(program, OpenCode);
    NamedIff(program, Omp);
    NamedIff(program, Muse);
  }

  lemma {:induction false} BaseNameBehind(dir: string, token: string)
    ensures BaseName(dir + "/" + token) == BaseName(token)
  {
    var inner := BaseNameInDirectory(token);
    assert dir + "/" + token == (dir + "/" + inner) + BaseName(token);
    BaseNameIs(dir + "/" + token, dir + "/" + inner, BaseName(token));
  }

  /** A program that does not start with whitespace has what stands before its first as its first token. */
  lemma {:induction false} FirstToken(program: string)
    requires program != [] && !StartsWithSpace(program)
    ensures Tokens(program) != [] && Tokens(program)[0] == program[..WordEnd(program)]
  {
  }

  /** A path put in front of a program does not change which harness it names. */
  lemma {:induction false} PathKeepsHarness(dir: string, program: string)
    requires (forall i | 0 <= i < |dir| :: !IsSpace(dir[i])) && !StartsWithSpace(program)
    ensures FromProgram(dir + "/" + program) == FromProgram(program)
  {
    hide Tokens, FirstNamed, BaseName;
    var path, n := dir + "/" + program, WordEnd(program);
    WordEndAt(path, |dir| + 1 + n);
    FirstToken(path);
    assert path[..|dir| + 1 + n] == dir + "/" + program[..n];
    BaseNameBehind(dir, program[..n]);
    if program != [] {
      FirstToken(program);
    } else {
      NothingNamed();
    }
  }

  lemma {:induction false} NothingNamed()
    ensures Tokens([]) == [] && BaseName([]) == []
  {
  }

  // ---- resuming -----------------------------------------------------------------------------

  predicate StartsWithSpace(s: string) {
    s != [] && IsSpace(s[0])
  }

  predicate IsSubcommand(kind: AgentKind) {
    kind.Codex? || kind.Muse?
  }

  /** The tokens that make the harness resume. */
  function ResumeTokens(kind: AgentKind): seq<string> {
    match kind
    case Claude => ["--resume"]
    case Codex => ["resume", "--last"]
    case Muse => ["resume", "--last"]
    case OpenCode => ["--continue"]
    case Omp => ["--continue"]
    case Unknown => []
  }

  function ResumeText(kind: AgentKind): string {
    match kind
    case Claude => "--resume"
    case Codex => "resume --last"
    case Muse => "resume --last"
    case OpenCode => "--continue"
    case Omp => "--continue"
    case Unknown => ""
  }

  function Resume(kind: AgentKind, program: string): Option<string> {
    var n := WordEnd(program);
    var binary := program[..n];
    var rest := if n < |program| then Some(program[n + 1..]) else None;
    if kind.Unknown? then None
    else if IsSubcommand(kind) then
      match rest
      case Some(r) => Some(binary + " " + ResumeText(kind) + " " + r)
      case None => Some(binary + " " + ResumeText(kind))
    else
      match rest
      case Some(r) => Some(binary + " " + r + " " + ResumeText(kind))
      case None => Some(binary + " " + ResumeText(kind))
  }

  lemma WordThenArgs(binary: string, args: string)
    requires forall i | 0 <= i < |binary| :: !IsSpace(binary[i])
    ensures WordEnd(binary) == WordEnd(binary + " " + args) == |binary|
    ensures binary[..|binary|] == (binary + " " + args)[..|binary|] == binary
    ensures (binary + " " + args)[|binary| + 1..] == args
  {
    WordEndAt(binary, |binary|);
    WordEndAt(binary + " " + args, |binary|);
  }

  /** The resume command of each harness that takes a flag, for a binary alone and with arguments. */
  lemma ResumesByFlag(binary: string, args: string)
    requires forall i | 0 <= i < |binary| :: !IsSpace(binary[i])
    ensures Resume(Claude, binary) == Some(binary + " --resume")
    ensures Resume(Claude, binary + " " + args) == Some(binary + " " + args + " --resume")
    ensures Resume(OpenCode, binary) == Resume(Omp, binary) == Some(binary + " --continue")
    ensures Resume(OpenCode, binary + " " + args) == Resume(Omp, binary + " " + args)
         == Some(binary + " " + args + " --continue")
    ensures Resume(Unknown, binary) == Resume(Unknown, binary + " " + args) == None
  {
    hide WordEnd;
    WordThenArgs(binary, args);
    var both := binary + " " + args;
    assert binary + " " + "--resume" == binary + " --resume" && binary + " " + "--continue" == binary + " --continue";
    assert both + " " + "--resume" == both + " --resume" && both + " " + "--continue" == both + " --continue";
  }

  /** The same of those that take a subcommand. */
  lemma ResumesBySubcommand(binary: string, args: string)
    requires forall i | 0 <= i < |binary| :: !IsSpace(binary[i])
    ensures Resume(Codex, binary) == Resume(Muse, binary) == Some(binary + " resume --last")
    ensures Resume(Codex, binary + " " + args) == Resume(Muse, binary + " " + args)
         == Some(binary + " resume --last " + args)
  {
    hide WordEnd;
    WordThenArgs(binary, args);
    assert binary + " " + "resume --last" == binary + " resume --last";
    assert binary + " " + "resume --last" + " " + args == binary + " resume --last " + args;
  }

  /** The original tokens with the resume tokens put in: after the binary, or at the end. */
  function Inserted(kind: AgentKind, tokens: seq<string>): seq<string> {
    if !IsSubcommand(kind) then tokens + ResumeTokens(kind)
    else if tokens == [] then ResumeTokens(kind)
    else [tokens[0]] + ResumeTokens(kind) + tokens[1..]
  }

  lemma {:induction false} ResumeTextTokens(kind: AgentKind)
    ensures Tokens(ResumeText(kind)) == ResumeTokens(kind)
  {
    match kind
    case Claude => TokenOfWord("--resume");
    case Codex => SubcommandTokens();
    case Muse => SubcommandTokens();
    case OpenCode => TokenOfWord("--continue");
    case Omp => TokenOfWord("--continue");
    case Unknown =>
  }

  lemma {:induction false} JoinedWords(first: string, second: string)
    requires first != [] && forall i | 0 <= i < |first| :: !IsSpace(first[i])
    requires second != [] && forall i | 0 <= i < |second| :: !IsSpace(second[i])
    ensures Tokens(first + [' '] + second) == [first, second]
  {
    TokenOfWord(first);
    TokenOfWord(second);
    TokensOfJoined(first, ' ', second);
  }

  lemma {:induction false} SubcommandTokens()
    ensures Tokens("resume --last") == ["resume", "--last"]
  {
    JoinedWords("resume", "--last");
    assert "resume" + [' '] + "--last" == "resume --last";
  }

  /** The tokens of a program: what stands before its first whitespace, then the rest. */
  lemma {:induction false} SplitTokens(program: string)
    ensures var n := WordEnd(program);
            && Tokens(program) == Tokens(program[..n]) + (if n < |program| then Tokens(program[n + 1..]) else [])
            && Tokens(program[..n]) == (if n == 0 then [] else [program[..n]])
  {
    var n := WordEnd(program);
    if n < |program| {
      assert program == program[..n] + [program[n]] + program[n + 1..];
      TokensOfJoined(program[..n], program[n], program[n + 1..]);
    } else {
      assert program[..n] == program;
      assert Tokens(program) == Tokens(program) + [];
    }
    if n > 0 {
      TokenOfWord(program[..n]);
    }
  }

  lemma {:induction false} TwoParts(a: string, b: string)
    ensures Tokens(a + " " + b) == Tokens(a) + Tokens(b)
  {
    assert a + " " + b == a + [' '] + b;
    TokensOfJoined(a, ' ', b);
  }

  lemma {:induction false} ThreeParts(a: string, b: string, c: string)
    ensures Tokens(a + " " + b + " " + c) == Tokens(a) + Tokens(b) + Tokens(c)
  {
    TwoParts(a, b);
    TwoParts(a + " " + b, c);
  }

  function FirstTokens(program: string): seq<string> {
    if WordEnd(program) == 0 then [] else [program[..WordEnd(program)]]
  }

  function RestTokens(program: string): seq<string> {
    if WordEnd(program) < |program| then Tokens(program[WordEnd(program) + 1..]) else []
  }

  lemma {:induction false} SubcommandTokensOfResume(kind: AgentKind, program: string)
    requires kind != Unknown && IsSubcommand(kind)
    ensures Tokens(Resume(kind, program).value) == FirstTokens(program) + ResumeTokens(kind) + RestTokens(program)
  {
    var n := WordEnd(program);
    SplitTokens(program);
    ResumeTextTokens(kind);
    if n == |program| {
      TwoParts(program[..n], ResumeText(kind));
    } else {
      ThreeParts(program[..n], ResumeText(kind), program[n + 1..]);
    }
  }

  lemma {:induction false} FlagTokensOfResume(kind: AgentKind, program: string)
    requires kind != Unknown && !IsSubcommand(kind)
    ensures Tokens(Resume(kind, program).value) == FirstTokens(program) + RestTokens(program) + ResumeTokens(kind)
  {
    var n := WordEnd(program);
    SplitTokens(program);
    ResumeTextTokens(kind);
    if n == |program| {
      TwoParts(program[..n], ResumeText(kind));
    } else {
      ThreeParts(program[..n], program[n + 1..], ResumeText(kind));
    }
  }

  /** What the resume command's tokens are, for every program and known harness. */
  lemma {:induction false} TokensOfResume(kind: AgentKind, program: string)
    requires kind != Unknown
    ensures Tokens(program) == FirstTokens(program) + RestTokens(program)
    ensures Tokens(Resume(kind, program).value) ==
            if IsSubcommand(kind) then FirstTokens(program) + ResumeTokens(kind) + RestTokens(program)
            else FirstTokens(program) + RestTokens(program) + ResumeTokens(kind)
  {
    SplitTokens(program);
    if IsSubcommand(kind) {
      SubcommandTokensOfResume(kind, program);
    } else {
      FlagTokensOfResume(kind, program);
    }
  }

  /** Putting the subcommand after the first of these tokens, or in front of them all. */
  lemma {:induction false} InsertedIff(kind: AgentKind, first: seq<string>, rest: seq<string>)
    requires IsSubcommand(kind) && |first| <= 1
    ensures first + ResumeTokens(kind) + rest == Inserted(kind, first + rest) <==> first != [] || rest == []
  {
    var all := first + rest;
    if first != [] {
      assert all[..1] == first && all[1..] == rest;
    } else if rest != [] {
      assert all == rest && (first + ResumeTokens(kind) + rest)[1] == "--last" && Inserted(kind, all)[1] == "resume";
      assert "--last"[0] != "resume"[0];
    }
  }

  /**
   Resume rewriting, with its exact limit: the resume command is the original with only the resume
   tokens inserted at the harness's place if and only if the harness takes a flag, or the program
   does not start with whitespace, or is nothing but whitespace.
   */
  lemma {:induction false} ResumeInsertsTokens(kind: AgentKind, program: string)
    requires kind != Unknown
    ensures Tokens(Resume(kind, program).value) == Inserted(kind, Tokens(program)) <==>
            !IsSubcommand(kind) || !StartsWithSpace(program) || Tokens(program) == []
  {
    TokensOfResume(kind, program);
    if IsSubcommand(kind) {
      InsertedIff(kind, FirstTokens(program), RestTokens(program));
    }
  }

  lemma {:induction false} FlagsNameNoHarness(word: string)
    requires word == "--resume" || word == "--continue" || word == "resume"
    ensures KindOf([word]) == KindOf([]) == Unknown
  {
    BaseNameOfWord(word);
    assert LowerChar(word[0]) == word[0];
    assert KNOWN[1..][1..][1..][1..][1..] == [];
    forall k | k in KNOWN ensures !EqIgnoreCase(word, BinaryName(k).value) && !EqIgnoreCase([], BinaryName(k).value) {
      assert LowerChar(BinaryName(k).value[0]) == BinaryName(k).value[0];
    }
    NoneNamed(KNOWN, word);
    NoneNamed(KNOWN, []);
  }

  lemma {:induction false} NoneNamed(kinds: seq<AgentKind>, name: string)
    requires forall k | k in kinds :: BinaryName(k).Some? ==> !EqIgnoreCase(name, BinaryName(k).value)
    ensures FirstNamed(kinds, name) == Unknown
  {
    if kinds != [] {
      assert kinds[0] in kinds;
      NoneNamed(kinds[1..], name);
    }
  }

  lemma {:induction false} BaseNameOfWord(word: string)
    requires forall i | 0 <= i < |word| :: word[i] != '/'
    ensures BaseName(word) == word
  {
    if word != [] {
      BaseNameOfWord(word[..|word| - 1]);
    }
  }

  /** A program that names nothing still names nothing once resume tokens are added to it. */
  lemma {:induction false} EmptyProgramsStayUnknown(kind: AgentKind, program: string)
    requires kind != Unknown && Tokens(program) == []
    ensures FromProgram(Resume(kind, program).value) == FromProgram(program) == Unknown
  {
    TokensOfResume(kind, program);
    assert |FirstTokens(program)| + |RestTokens(program)| == 0;
    assert FirstTokens(program) == [] && RestTokens(program) == [];
    var word := ResumeTokens(kind)[0];
    FlagsNameNoHarness(word);
    FirstDecides(ResumeTokens(kind), [word]);
  }

  /**
   Adding resume tokens leaves the harness that a program names as it was, if and only if they went
   in behind the binary or there was no harness: a leading space makes the program of a subcommand
   harness unrecognisable. It holds for every harness the tokens may be of, also another one.
   */
  lemma {:induction false} ResumeKeepsHarness(kind: AgentKind, program: string)
    requires kind != Unknown
    ensures FromProgram(Resume(kind, program).value) == FromProgram(program) <==>
            !IsSubcommand(kind) || !StartsWithSpace(program) || FromProgram(program) == Unknown
  {
    var ts, resumed := Tokens(program), Tokens(Resume(kind, program).value);
    if ts == [] {
      EmptyProgramsStayUnknown(kind, program);
    } else {
      TokensOfResume(kind, program);
      if IsSubcommand(kind) && StartsWithSpace(program) {
        FlagsNameNoHarness("resume");
        assert resumed[0] == "resume";
        FirstDecides(resumed, ["resume"]);
      } else {
        assert resumed[0] == ts[0];
        FirstDecides(resumed, ts);
      }
    }
  }
}
