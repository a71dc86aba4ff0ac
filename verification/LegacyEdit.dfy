/**
 `client.rs`: editing a session on a server too old for the combined edit request.

 The edit becomes up to five requests in a row. Between any two of them somebody else may change
 the session, and each request may be lost before the server sees it, or be applied with its answer
 lost on the way back. The client never learns which.
 */
module LegacyEdit {
  import opened Wrappers
  import opened Strings

  datatype Edit = Edit(
    title: Option<string>,
    program: Option<string>,
    section: Option<Option<string>>,
    keepAlive: Option<bool>,
    base: Option<Option<string>>,
    restart: bool
  )

  datatype ClientError =
    | Unavailable(reason: string)
    | Auth
    | NotFound
    | InvalidRequest(message: string)
    | Server(message: string)
    | Protocol(message: string)

  datatype PrRetarget = NoPr | Retargeted | Failed(message: string)

  datatype Warning = PrTargetFailed(message: string) | KeepAliveChanged | Incomplete(error: ClientError)

  datatype Outcome = Outcome(restarted: bool, base: Option<PrRetarget>, warnings: seq<Warning>)

  const NEEDS_UPGRADE := InvalidRequest("This server needs an upgrade to save program changes through Edit session. No settings were changed.")

  // ---- the server, and what can happen to a request -----------------------------------------

  datatype Settings = Settings(title: string, section: Option<string>, parent: Option<string>, keepAlive: bool)

  datatype Request =
    | Rename(title: string)
    | SetSection(section: Option<string>)
    | SetBase(parent: Option<string>)
    | ReadDetail
    | ToggleKeepAlive

  datatype Fate = Answered | Lost(error: ClientError) | Unheard(error: ClientError)

  /** What others did to the session just before a request arrived, and how the request fared. */
  datatype Weather = Weather(others: Option<Settings>, fate: Fate)

  datatype Script = Script(
    rename: Weather,
    section: Weather,
    base: Weather,
    pr: PrRetarget,
    read: Weather,
    found: bool,
    toggle: Weather
  )

  /** One request sent: whether the client got a good answer, and the settings right after it. */
  datatype Entry = Entry(request: Request, failure: Option<ClientError>, after: Settings)

  function Handle(s: Settings, r: Request): Settings {
    match r
    case Rename(title) => s.(title := title)
    case SetSection(section) => s.(section := section)
    case SetBase(parent) => s.(parent := parent)
    case ReadDetail => s
    case ToggleKeepAlive => s.(keepAlive := !s.keepAlive)
  }

  function Send(s: Settings, r: Request, w: Weather): Entry {
    var found := w.others.GetOr(s);
    match w.fate
    case Answered => Entry(r, None, Handle(found, r))
    case Lost(error) => Entry(r, Some(error), found)
    case Unheard(error) => Entry(r, Some(error), Handle(found, r))
  }

  /** The detail request answers nothing for a session that is gone. */
  function Reply(s: Settings, r: Request, script: Script): Entry {
    match r
    case Rename(_) => Send(s, r, script.rename)
    case SetSection(_) => Send(s, r, script.section)
    case SetBase(_) => Send(s, r, script.base)
    case ToggleKeepAlive => Send(s, r, script.toggle)
    case ReadDetail =>
      var entry := Send(s, r, script.read);
      if entry.failure == None && !script.found then entry.(failure := Some(NotFound)) else entry
  }

  function WeatherOf(r: Request, script: Script): Weather {
    match r
    case Rename(_) => script.rename
    case SetSection(_) => script.section
    case SetBase(_) => script.base
    case ReadDetail => script.read
    case ToggleKeepAlive => script.toggle
  }

  /**
   The server carries a request out unless it is lost on the way there, on the settings as others
   left them; the client hears of it unless it is lost either way, or the session is found to be gone.
   */
  lemma ReplyIs(s: Settings, r: Request, script: Script)
    ensures var w, entry := WeatherOf(r, script), Reply(s, r, script);
            && entry.request == r
            && entry.after == (if w.fate.Lost? then w.others.GetOr(s) else Handle(w.others.GetOr(s), r))
            && (entry.failure == None <==> w.fate.Answered? && (r.ReadDetail? ==> script.found))
            && (w.fate.Lost? || w.fate.Unheard? ==> entry.failure == Some(w.fate.error))
            && (w.fate.Answered? && r.ReadDetail? && !script.found ==> entry.failure == Some(NotFound))
  {
  }

  /** What the settings are after the requests so far. */
  function Latest(sent: seq<Entry>, before: Settings): Settings {
    if sent == [] then before else sent[|sent| - 1].after
  }

  /** Every entry is what the server did with that request at that moment. */
  ghost predicate FromServer(sent: seq<Entry>, before: Settings, script: Script) {
    sent == []
    || (var earlier, last := sent[..|sent| - 1], sent[|sent| - 1];
        FromServer(earlier, before, script) && last == Reply(Latest(earlier, before), last.request, script))
  }

  // ---- what the edit promises ---------------------------------------------------------------

  predicate IsWrite(r: Request) {
    !r.ReadDetail?
  }

  /** The client knows that the request was carried out. */
  ghost predicate Acknowledged(sent: seq<Entry>, r: Request) {
    exists e | e in sent :: e.request == r && e.failure == None
  }

  ghost predicate Saved(sent: seq<Entry>) {
    exists e | e in sent :: IsWrite(e.request) && e.failure == None
  }

  /** Read at, or toggled to, the wanted value: the server's value at that moment. */
  ghost predicate KeepAliveConfirmed(sent: seq<Entry>, value: bool) {
    && sent != []
    && var last := sent[|sent| - 1];
       last.failure == None && (last.request.ReadDetail? || last.request.ToggleKeepAlive?)
       && last.after.keepAlive == value
  }

  ghost predicate Confirmed(edit: Edit, sent: seq<Entry>) {
    && (edit.title.Some? ==> Acknowledged(sent, Rename(edit.title.value)))
    && (edit.section.Some? ==> Acknowledged(sent, SetSection(edit.section.value)))
    && (edit.base.Some? ==> Acknowledged(sent, SetBase(edit.base.value)))
    && (edit.keepAlive.Some? ==> KeepAliveConfirmed(sent, edit.keepAlive.value))
  }

  function Refused(edit: Edit): bool {
    edit.program.Some? || edit.restart
  }

  function WritePlan(edit: Edit): seq<Request> {
    (if edit.title.Some? then [Rename(edit.title.value)] else [])
    + (if edit.section.Some? then [SetSection(edit.section.value)] else [])
    + (if edit.base.Some? then [SetBase(edit.base.value)] else [])
  }

  function Plan(edit: Edit): seq<Request> {
    WritePlan(edit) + (if edit.keepAlive.Some? then [ReadDetail, ToggleKeepAlive] else [])
  }

  function Requests(sent: seq<Entry>): seq<Request> {
    seq(|sent|, i requires 0 <= i < |sent| => sent[i].request)
  }

  /** Nothing is sent after a failure. */
  ghost predicate StopsAtFailure(sent: seq<Entry>) {
    forall i | 0 <= i < |sent| - 1 :: sent[i].failure == None
  }

  /** The requests go out in a fixed order, and a toggle only follows a read that differed. */
  ghost predicate InOrder(edit: Edit, sent: seq<Entry>) {
    && Requests(sent) <= Plan(edit)
    && StopsAtFailure(sent)
    && (forall i | 0 <= i < |sent| && sent[i].request.ToggleKeepAlive? ::
          0 < i && edit.keepAlive.Some? && sent[i - 1].after.keepAlive != edit.keepAlive.value)
  }

  /** What was sent without a failing last request. */
  function Good(sent: seq<Entry>): seq<Entry> {
    if Failure(sent) == None then sent else sent[..|sent| - 1]
  }

  function Failure(sent: seq<Entry>): Option<ClientError> {
    if sent == [] then None else sent[|sent| - 1].failure
  }

  /** The settings when nobody interferes and every request is answered. */
  function Applied(edit: Edit, s: Settings): Settings {
    Settings(edit.title.GetOr(s.title), edit.section.GetOr(s.section), edit.base.GetOr(s.parent),
             edit.keepAlive.GetOr(s.keepAlive))
  }

  const FINE := Weather(None, Answered)

  /** Nobody interferes, every request is answered, and the session is there. */
  predicate Calm(script: Script) {
    script == Script(FINE, FINE, FINE, script.pr, FINE, true, FINE)
  }

  ghost predicate BaseMoved(edit: Edit, sent: seq<Entry>) {
    edit.base.Some? && Acknowledged(sent, SetBase(edit.base.value))
  }

  ghost function PrWarnings(edit: Edit, script: Script, sent: seq<Entry>): seq<Warning> {
    if BaseMoved(edit, sent) && script.pr.Failed? then [PrTargetFailed(script.pr.message)] else []
  }

  ghost function FlipWarnings(edit: Edit, sent: seq<Entry>): seq<Warning> {
    if edit.keepAlive.Some? && Acknowledged(sent, ToggleKeepAlive) && !KeepAliveConfirmed(sent, edit.keepAlive.value)
    then [KeepAliveChanged] else []
  }

  ghost function Warnings(edit: Edit, script: Script, sent: seq<Entry>): seq<Warning> {
    PrWarnings(edit, script, sent) + FlipWarnings(edit, sent)
    + (if Failure(sent).Some? then [Incomplete(Failure(sent).value)] else [])
  }

  /** Everything a caller of the legacy edit may rely on. */
  ghost predicate Honest(edit: Edit, before: Settings, script: Script,
                         result: Result<Outcome, ClientError>, sent: seq<Entry>, after: Settings) {
    && (Refused(edit) ==> sent == [] && after == before && result == Err(NEEDS_UPGRADE))
    && (!Refused(edit) ==>
          && InOrder(edit, sent) && FromServer(sent, before, script) && after == Latest(sent, before)
          && (result.Err? <==> !Saved(sent) && Failure(sent).Some?)
          && (result.Err? ==> Some(result.error) == Failure(sent))
          && (result.Ok? && result.value.warnings == [] <==>
                Confirmed(edit, sent) && (edit.base.Some? ==> !script.pr.Failed?))
          && (result.Ok? ==> result.value.warnings == Warnings(edit, script, sent))
          && (result.Ok? && result.value.warnings != [] ==> Saved(sent))
          && (result.Ok? ==>
                && !result.value.restarted
                && result.value.base ==
                   if edit.base.Some? && Acknowledged(sent, SetBase(edit.base.value)) then Some(script.pr) else None)
          && (Calm(script) ==> result.Ok? && after == Applied(edit, before)))
  }

  // ---- the edit -----------------------------------------------------------------------------

  /** Once nothing but the last request can have failed, what was sent says what was acknowledged. */
  lemma {:induction false} AcknowledgedIs(sent: seq<Entry>, r: Request)
    requires StopsAtFailure(sent)
    ensures Acknowledged(sent, r) <==>
            r in Requests(Good(sent))
  {
    var good := Good(sent);
    assert forall e | e in good :: e in sent && e.failure == None;
    if r in Requests(good) {
      var i :| 0 <= i < |good| && Requests(good)[i] == r;
      assert good[i] in sent;
    }
    if e :| e in sent && e.request == r && e.failure == None {
      var i :| 0 <= i < |sent| && sent[i] == e;
      assert Requests(good)[i] == r;
    }
  }

  lemma {:induction false} Snoc(sent: seq<Entry>, e: Entry, before: Settings, script: Script)
    requires StopsAtFailure(sent) && Failure(sent) == None && FromServer(sent, before, script)
    requires e == Reply(Latest(sent, before), e.request, script)
    ensures StopsAtFailure(sent + [e]) && Failure(sent + [e]) == e.failure
    ensures Requests(sent + [e]) == Requests(sent) + [e.request]
    ensures FromServer(sent + [e], before, script) && Latest(sent + [e], before) == e.after
  {
    RequestsSnoc(sent, e);
    assert (sent + [e])[..|sent|] == sent;
  }

  lemma {:induction false} RequestsSnoc(sent: seq<Entry>, e: Entry)
    ensures Requests(sent + [e]) == Requests(sent) + [e.request]
  {
  }

  ghost predicate WritesShape(edit: Edit, sent: seq<Entry>) {
    && Requests(sent) <= WritePlan(edit) && StopsAtFailure(sent)
    && (Failure(sent) == None ==> Requests(sent) == WritePlan(edit))
  }

  ghost predicate FlipShape(value: bool, sent: seq<Entry>) {
    && 1 <= |sent| <= 2 && sent[0].request == ReadDetail
    && (|sent| == 2 <==> sent[0].failure == None && sent[0].after.keepAlive != value)
    && (|sent| == 2 ==> sent[1].request == ToggleKeepAlive)
  }

  ghost predicate Toggled(sent: seq<Entry>) {
    |sent| == 2 && Failure(sent) == None
  }

  ghost function FlipNote(value: bool, sent: seq<Entry>): seq<Warning> {
    if Toggled(sent) && sent[1].after.keepAlive != value then [KeepAliveChanged] else []
  }

  lemma {:induction false} SavedIs(sent: seq<Entry>)
    requires StopsAtFailure(sent)
    ensures Saved(sent) <==>
            exists i | 0 <= i < |Good(sent)| :: IsWrite(Good(sent)[i].request)
  {
    if i :| 0 <= i < |Good(sent)| && IsWrite(Good(sent)[i].request) {
      assert Good(sent)[i] in sent;
    }
    if e :| e in sent && IsWrite(e.request) && e.failure == None {
      var i :| 0 <= i < |sent| && sent[i] == e;
      assert Good(sent)[i] == e;
    }
  }

  lemma {:induction false} PlainRequests(edit: Edit, sent: seq<Entry>)
    requires Requests(sent) <= WritePlan(edit)
    ensures forall i | 0 <= i < |sent| :: IsWrite(sent[i].request) && !sent[i].request.ToggleKeepAlive?
  {
    forall i | 0 <= i < |sent|
      ensures IsWrite(sent[i].request) && !sent[i].request.ToggleKeepAlive?
    {
      assert Requests(sent)[i] == WritePlan(edit)[i];
    }
  }

  /** Each wanted write is acknowledged exactly when the run got past it. */
  lemma {:induction false} FirstSteps(edit: Edit, sent: seq<Entry>)
    requires WritesShape(edit, sent)
    ensures edit.base.Some? ==> (Acknowledged(sent, SetBase(edit.base.value)) <==> Failure(sent) == None)
    ensures Failure(sent) == None ==>
              && (edit.title.Some? ==> Acknowledged(sent, Rename(edit.title.value)))
              && (edit.section.Some? ==> Acknowledged(sent, SetSection(edit.section.value)))
    ensures Failure(sent).Some? ==>
              || (edit.title.Some? && !Acknowledged(sent, Rename(edit.title.value)))
              || (edit.section.Some? && !Acknowledged(sent, SetSection(edit.section.value)))
              || (edit.base.Some? && !Acknowledged(sent, SetBase(edit.base.value)))
  {
    var good := Requests(Good(sent));
    assert good == Requests(sent)[..|Good(sent)|];
    assert good == WritePlan(edit)[..|good|];
    if edit.title.Some? { AcknowledgedIs(sent, Rename(edit.title.value)); }
    if edit.section.Some? { AcknowledgedIs(sent, SetSection(edit.section.value)); }
    if edit.base.Some? { AcknowledgedIs(sent, SetBase(edit.base.value)); }
  }

  lemma {:induction false} Joined(first: seq<Entry>, second: seq<Entry>, r: Request)
    ensures Acknowledged(first + second, r) <==> Acknowledged(first, r) || Acknowledged(second, r)
    ensures Saved(first + second) <==> Saved(first) || Saved(second)
  {
  }

  lemma {:induction false} FlipInOrder(edit: Edit, writes: seq<Entry>, rest: seq<Entry>, value: bool)
    requires WritesShape(edit, writes) && Failure(writes) == None
    requires edit.keepAlive == Some(value) && FlipShape(value, rest)
    ensures InOrder(edit, writes + rest)
  {
    var sent := writes + rest;
    PlainRequests(edit, writes);
    assert Requests(sent) == Requests(writes) + Requests(rest);
    assert Requests(rest) <= [ReadDetail, ToggleKeepAlive];
    assert Plan(edit) == WritePlan(edit) + [ReadDetail, ToggleKeepAlive];
  }

  lemma {:induction false} FlipAcknowledged(value: bool, rest: seq<Entry>)
    requires FlipShape(value, rest)
    ensures Acknowledged(rest, ToggleKeepAlive) <==> |rest| == 2 && Failure(rest) == None
    ensures Saved(rest) <==> |rest| == 2 && Failure(rest) == None
  {
  }

  lemma {:induction false} WritesAcknowledged(edit: Edit, writes: seq<Entry>)
    requires WritesShape(edit, writes)
    ensures !Acknowledged(writes, ToggleKeepAlive)
    ensures Saved(writes) <==> Good(writes) != []
  {
    PlainRequests(edit, writes);
    SavedIs(writes);
    AcknowledgedIs(writes, ToggleKeepAlive);
    assert Good(writes) != [] ==> IsWrite(Good(writes)[0].request);
  }

  /** Writes that stopped at a failure, with nothing after them. */
  lemma {:induction false} OnlyWrites(edit: Edit, sent: seq<Entry>)
    requires WritesShape(edit, sent) && (Failure(sent).Some? || edit.keepAlive == None)
    ensures InOrder(edit, sent)
    ensures Saved(sent) <==> Good(sent) != []
    ensures BaseMoved(edit, sent) <==> edit.base.Some? && Failure(sent) == None
    ensures FlipWarnings(edit, sent) == []
    ensures Confirmed(edit, sent) <==> Failure(sent) == None
  {
    PlainRequests(edit, sent);
    WritesAcknowledged(edit, sent);
    FirstSteps(edit, sent);
  }

  lemma {:induction false} ServerContinues(first: seq<Entry>, second: seq<Entry>, before: Settings, script: Script)
    requires FromServer(first, before, script) && FromServer(second, Latest(first, before), script)
    ensures FromServer(first + second, before, script)
    ensures Latest(first + second, before) == Latest(second, Latest(first, before))
  {
    if second == [] {
      assert first + second == first;
    } else {
      var k := |second| - 1;
      ServerContinues(first, second[..k], before, script);
      assert (first + second)[..|first| + k] == first + second[..k];
    }
  }

  /** All writes got through, and the flag was read and perhaps flipped. */
  lemma {:induction false} WithFlip(edit: Edit, writes: seq<Entry>, rest: seq<Entry>, value: bool)
    requires WritesShape(edit, writes) && Failure(writes) == None
    requires edit.keepAlive == Some(value) && FlipShape(value, rest)
    ensures var sent := writes + rest;
            && InOrder(edit, sent) && Failure(sent) == Failure(rest)
            && (Saved(sent) <==> writes != [] || Toggled(rest))
            && (BaseMoved(edit, sent) <==> edit.base.Some?)
            && FlipWarnings(edit, sent) == FlipNote(value, rest)
            && (Confirmed(edit, sent) <==> Failure(rest) == None && FlipNote(value, rest) == [])
  {
    hide InOrder, FromServer, WritesShape;
    FlipInOrder(edit, writes, rest, value);
    WritesAcknowledged(edit, writes);
    FlipAcknowledged(value, rest);
    FirstSteps(edit, writes);
    Joined(writes, rest, ToggleKeepAlive);
    if edit.title.Some? { Joined(writes, rest, Rename(edit.title.value)); }
    if edit.section.Some? { Joined(writes, rest, SetSection(edit.section.value)); }
    if edit.base.Some? { Joined(writes, rest, SetBase(edit.base.value)); }
  }

  /** What is sent so far grows by one entry. */
  ghost predicate Grew(sent: seq<Entry>, now: seq<Entry>, r: Request, before: Settings, script: Script) {
    && |now| == |sent| + 1 && StopsAtFailure(now) && FromServer(now, before, script)
    && Requests(now) == Requests(sent) + [r]
  }

  lemma CalmReply(s: Settings, r: Request, script: Script)
    ensures Calm(script) ==> Reply(s, r, script) == Entry(r, None, Handle(s, r))
  {
  }

  /** One request: what is sent so far grows by the server's reply to it. */
  method Attempt(sent: seq<Entry>, r: Request, before: Settings, script: Script)
    returns (failure: Option<ClientError>, now: seq<Entry>, after: Settings)
    requires StopsAtFailure(sent) && Failure(sent) == None && FromServer(sent, before, script)
    ensures Grew(sent, now, r, before, script) && failure == Failure(now) && after == Latest(now, before)
    ensures Calm(script) ==> failure == None && after == Handle(Latest(sent, before), r)
  {
    var entry := Reply(Latest(sent, before), r, script);
    CalmReply(Latest(sent, before), r, script);
    Snoc(sent, entry, before, script);
    failure, now, after := entry.failure, sent + [entry], entry.after;
  }

  lemma NothingSent(before: Settings, script: Script)
    ensures Requests([]) == [] && StopsAtFailure([]) && FromServer([], before, script)
  {
  }

  /** The three plain writes; each is confirmed before the next is sent. */
  method Writes(edit: Edit, before: Settings, script: Script)
    returns (failure: Option<ClientError>, saved: bool, base: Option<PrRetarget>, warnings: seq<Warning>,
             sent: seq<Entry>, after: Settings)
    ensures WritesShape(edit, sent) && failure == Failure(sent)
    ensures FromServer(sent, before, script) && after == Latest(sent, before)
    ensures saved <==> |sent| > (if failure == None then 0 else 1)
    ensures base == if edit.base.Some? && failure == None then Some(script.pr) else None
    ensures warnings == if base.Some? && script.pr.Failed? then [PrTargetFailed(script.pr.message)] else []
    ensures Calm(script) ==> failure == None && after == Applied(edit.(keepAlive := None), before)
  {
    hide FromServer, StopsAtFailure, Requests, Calm;
    NothingSent(before, script);
    ghost var titles := if edit.title.Some? then [Rename(edit.title.value)] else [];
    ghost var sections := if edit.section.Some? then [SetSection(edit.section.value)] else [];
    ghost var bases := if edit.base.Some? then [SetBase(edit.base.value)] else [];
    assert WritePlan(edit) == titles + sections + bases;
    failure, saved, base, warnings, sent, after := None, false, None, [], [], before;
    if edit.title.Some? {
      failure, sent, after := Attempt(sent, Rename(edit.title.value), before, script);
      if failure.Some? { return; }
      saved := true;
    }
    assert Requests(sent) == titles;
    if edit.section.Some? {
      failure, sent, after := Attempt(sent, SetSection(edit.section.value), before, script);
      if failure.Some? { return; }
      saved := true;
    }
    assert Requests(sent) == titles + sections;
    if edit.base.Some? {
      failure, sent, after := Attempt(sent, SetBase(edit.base.value), before, script);
      if failure.Some? { return; }
      if script.pr.Failed? {
        warnings := warnings + [PrTargetFailed(script.pr.message)];
      }
      base := Some(script.pr);
      saved := true;
    }
  }

  /** Reads the flag as late as possible, and flips it only if it still differs. */
  method FlipIfDiffers(value: bool, before: Settings, script: Script)
    returns (failure: Option<ClientError>, toggled: bool, warnings: seq<Warning>, sent: seq<Entry>, after: Settings)
    ensures FlipShape(value, sent) && failure == Failure(sent)
    ensures FromServer(sent, before, script) && after == Latest(sent, before)
    ensures (toggled <==> Toggled(sent)) && warnings == FlipNote(value, sent)
    ensures Calm(script) ==> failure == None && warnings == [] && after == before.(keepAlive := value)
  {
    var entry := Reply(before, ReadDetail, script);
    Snoc([], entry, before, script);
    assert [] + [entry] == [entry];
    toggled, warnings, sent, after := false, [], [entry], entry.after;
    if entry.failure.Some? { return entry.failure, toggled, warnings, sent, after; }
    if after.keepAlive != value {
      var flip := Reply(after, ToggleKeepAlive, script);
      Snoc(sent, flip, before, script);
      sent, after := sent + [flip], flip.after;
      if flip.failure.Some? { return flip.failure, toggled, warnings, sent, after; }
      toggled := true;
      if after.keepAlive != value {
        warnings := [KeepAliveChanged];
      }
    }
    failure := None;
  }

  lemma AppliedThenFlipped(edit: Edit, s: Settings)
    ensures edit.keepAlive == None ==> edit.(keepAlive := None) == edit
    ensures edit.keepAlive.Some? ==>
              Applied(edit.(keepAlive := None), s).(keepAlive := edit.keepAlive.value) == Applied(edit, s)
  {
  }

  lemma WarningsMeanSaved(edit: Edit, script: Script, sent: seq<Entry>)
    ensures PrWarnings(edit, script, sent) + FlipWarnings(edit, sent) != [] ==> Saved(sent)
  {
  }

  /** The requests in order, up to the first failure, with what the caller is told so far. */
  method Steps(edit: Edit, before: Settings, script: Script)
    returns (failure: Option<ClientError>, saved: bool, base: Option<PrRetarget>, warnings: seq<Warning>,
             sent: seq<Entry>, after: Settings)
    ensures InOrder(edit, sent) && FromServer(sent, before, script) && after == Latest(sent, before)
    ensures failure == Failure(sent) && (saved <==> Saved(sent))
    ensures base == if BaseMoved(edit, sent) then Some(script.pr) else None
    ensures warnings == PrWarnings(edit, script, sent) + FlipWarnings(edit, sent)
    ensures Confirmed(edit, sent) <==> failure == None && FlipWarnings(edit, sent) == []
    ensures Calm(script) ==> failure == None && after == Applied(edit, before)
  {
    hide InOrder, FromServer, Confirmed, Saved, WritesShape, FlipShape, Calm, Applied, Toggled, FlipNote, FlipWarnings,
      BaseMoved;
    failure, saved, base, warnings, sent, after := Writes(edit, before, script);
    if failure.Some? || edit.keepAlive == None {
      OnlyWrites(edit, sent);
      assert warnings == PrWarnings(edit, script, sent) + FlipWarnings(edit, sent);
    } else {
      var toggled, more, rest;
      failure, toggled, more, rest, after := FlipIfDiffers(edit.keepAlive.value, after, script);
      WithFlip(edit, sent, rest, edit.keepAlive.value);
      ServerContinues(sent, rest, before, script);
      AppliedThenFlipped(edit, before);
      sent := sent + rest;
      saved, warnings := saved || toggled, warnings + more;
    }
  }

  /** `edit_session_legacy`. */
  method EditLegacy(edit: Edit, before: Settings, script: Script)
    returns (result: Result<Outcome, ClientError>, sent: seq<Entry>, after: Settings)
    ensures Honest(edit, before, script, result, sent, after)
  {
    if edit.program.Some? || edit.restart {
      return Err(NEEDS_UPGRADE), [], before;
    }
    var failure, saved, base, warnings;
    failure, saved, base, warnings, sent, after := Steps(edit, before, script);
    WarningsMeanSaved(edit, script, sent);
    if failure.Some? {
      if !saved {
        return Err(failure.value), sent, after;
      }
      warnings := warnings + [Incomplete(failure.value)];
    }
    result := Ok(Outcome(false, base, warnings));
  }

  // ---- what an error leaves behind ----------------------------------------------------------

  /** The settings if others had done the same and the edit had sent nothing. */
  function WithoutEdit(sent: seq<Entry>, before: Settings, script: Script): Settings {
    if sent == [] then before
    else WeatherOf(sent[|sent| - 1].request, script).others.GetOr(WithoutEdit(sent[..|sent| - 1], before, script))
  }

  /** The last request was a write that the server carried out without the client hearing of it. */
  predicate UnheardWrite(sent: seq<Entry>, script: Script) {
    && sent != []
    && var last := sent[|sent| - 1].request;
       IsWrite(last) && WeatherOf(last, script).fate.Unheard?
  }

  lemma {:induction false} ReadsChangeNothing(sent: seq<Entry>, before: Settings, script: Script)
    requires FromServer(sent, before, script) && forall e | e in sent :: e.request.ReadDetail?
    ensures Latest(sent, before) == WithoutEdit(sent, before, script)
  {
    if sent != [] {
      ReadsChangeNothing(sent[..|sent| - 1], before, script);
    }
  }

  /**
   What an error means for the server: the edit has changed nothing, unless its last request was a
   write whose answer was lost; then it has done exactly that write.
   */
  lemma {:induction false} ErrorLeaves(edit: Edit, before: Settings, script: Script,
                                       result: Result<Outcome, ClientError>, sent: seq<Entry>, after: Settings)
    requires Honest(edit, before, script, result, sent, after) && result.Err?
    ensures after == (if UnheardWrite(sent, script)
                      then Handle(WithoutEdit(sent, before, script), sent[|sent| - 1].request)
                      else WithoutEdit(sent, before, script))
  {
    if sent != [] {
      var k := |sent| - 1;
      var earlier := sent[..k];
      assert forall e | e in earlier :: e in sent && e.failure == None;
      ReadsChangeNothing(earlier, before, script);
    }
  }

  /** So an error hides a change if and only if such a write was lost and it wrote something new. */
  lemma {:induction false} ErrorHidesAChangeIff(edit: Edit, before: Settings, script: Script,
                                                result: Result<Outcome, ClientError>, sent: seq<Entry>, after: Settings)
    requires Honest(edit, before, script, result, sent, after) && result.Err?
    ensures after != WithoutEdit(sent, before, script) <==>
            UnheardWrite(sent, script)
            && Handle(WithoutEdit(sent, before, script), sent[|sent| - 1].request) != WithoutEdit(sent, before, script)
  {
    ErrorLeaves(edit, before, script, result, sent, after);
  }

  const NEW_TITLE := Edit(Some("new"), None, None, None, None, false)
  const ANSWER_LOST := Script(Weather(None, Unheard(Auth)), FINE, FINE, NoPr, FINE, true, FINE)

  /** A rename whose answer is lost: the edit reports an error, and the title is new. */
  method RenamedAllTheSame(before: Settings) returns (result: Result<Outcome, ClientError>, after: Settings)
    ensures result == Err(Auth) && after == before.(title := "new")
  {
    var sent;
    result, sent, after := EditLegacy(NEW_TITLE, before, ANSWER_LOST);
    assert Requests(sent) <= [Rename("new")];
    assert |sent| == 1 && sent[0].request == Requests(sent)[0] && sent[..0] == [];
  }

  predicate OldServer(reply: Result<Outcome, ClientError>) {
    reply.Err? && reply.error.InvalidRequest? && Contains(reply.error.message, "unknown variant `edit`")
  }

  /** Only a refused request whose message names the unknown variant makes the client take the steps. */
  lemma OldServerIs(reply: Result<Outcome, ClientError>)
    ensures OldServer(reply) <==>
            reply.Err? && reply.error.InvalidRequest? && Says(reply.error.message, "unknown variant `edit`")
  {
    if reply.Err? && reply.error.InvalidRequest? {
      ContainsIs(reply.error.message, "unknown variant `edit`");
    }
  }

  /** `edit_session`: one combined request; the steps only for a server that does not know it. */
  method EditSession(edit: Edit, reply: Result<Outcome, ClientError>, before: Settings, script: Script)
    returns (result: Result<Outcome, ClientError>, sent: seq<Entry>, after: Settings)
    ensures if OldServer(reply) then Honest(edit, before, script, result, sent, after)
            else result == reply && sent == [] && after == before
  {
    if OldServer(reply) {
      result, sent, after := EditLegacy(edit, before, script);
    } else {
      result, sent, after := reply, [], before;
    }
  }
}
