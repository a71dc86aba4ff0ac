/**
 `api.ts`, `token.ts` and `main.ts`: the bearer token between the connect screen, the saved copy in
 the browser's storage, and the server's answers, which may arrive after the token was replaced.
 */
module TokenProtocol {
  import opened Wrappers

  datatype Source = NoSource | Stored | Hash | Submitted

  datatype Rejection = Rejection(message: Option<string>, token: Option<string>, source: Source)

  datatype Plan = Fallback(token: string) | Connect(clearStored: bool)

  function PlanRejection(rejected: Rejection, stored: Option<string>): (plan: Plan)
    ensures plan.Fallback? ==> rejected.source.Hash? && stored == Some(plan.token) && rejected.token != stored
    ensures rejected.source.Hash? && stored.Some? && rejected.token != stored ==> plan.Fallback?
    ensures plan == Connect(true) ==> stored.Some? && rejected.token == stored
  {
    if rejected.source.Hash? && stored.Some? && stored != rejected.token then Fallback(stored.value)
    else Connect(stored.Some? && stored == rejected.token)
  }

  /** What an observer of the page sees, in order. */
  datatype Note = TokenSet(source: Source) | Reported(rejection: Rejection) | FellBack | Erased

  /** A request in flight: the token it carried, and whether the server has accepted it. */
  datatype Request = Request(sent: Option<string>, ok: bool)

  datatype State = State(
    token: Option<string>,
    source: Source,
    rejected: bool,
    saved: Option<string>,
    available: bool,
    requests: map<nat, Request>,
    accepted: set<string>,
    log: seq<Note>
  )

  datatype Event =
    | Send(id: nat)
    | Refused(id: nat)
    | Accepted(id: nat)
    | Persist(id: nat)
    | Failed(id: nat)
    | Submit(token: string)
    | StorageChanges(saved: Option<string>, available: bool)

  /** An empty token counts as none. */
  function Truthy(token: Option<string>): Option<string> {
    if token == Some("") then None else token
  }

  function SetToken(s: State, token: Option<string>, source: Source): State {
    var kept := if Truthy(token).Some? then source else NoSource;
    s.(token := Truthy(token), source := kept, rejected := false, log := s.log + [TokenSet(kept)])
  }

  function Saved(s: State): Option<string> {
    if s.available then s.saved else None
  }

  function Save(s: State, token: Option<string>): State {
    if s.available then s.(saved := Truthy(token)) else s
  }

  function RejectionOf(s: State): Rejection {
    Rejection(if s.source.Submitted? then Some("That token was rejected.") else None, s.token, s.source)
  }

  function Forget(s: State): State {
    s.(token := None, source := NoSource, rejected := true)
  }

  /** The page's callback. */
  function OnUnauthorized(s: State, rejection: Rejection): State {
    var told := s.(log := s.log + [Reported(rejection)]);
    match PlanRejection(rejection, Saved(s))
    case Fallback(token) => SetToken(told.(log := told.log + [FellBack]), Some(token), Stored)
    case Connect(clear) => if clear then Save(told.(log := told.log + [Erased]), None) else told
  }

  /** `Api.unauthorized`: a refusal of a replaced token is ignored, a repeated one is not reported. */
  function Unauthorized(s: State, sent: Option<string>): State {
    if sent != s.token then s
    else if s.rejected then Forget(s)
    else OnUnauthorized(Forget(s), RejectionOf(s))
  }

  function PersistAccepted(s: State): State {
    if s.token == None || s.source.Stored? then s
    else Save(s, s.token).(source := Stored)
  }

  function Step(s: State, e: Event): State {
    match e
    case Send(id) =>
      if id in s.requests then s else s.(requests := s.requests[id := Request(s.token, false)])
    case Refused(id) =>
      if id in s.requests && !s.requests[id].ok then
        Unauthorized(s.(requests := s.requests - {id}), s.requests[id].sent)
      else s
    case Accepted(id) =>
      if id in s.requests then
        s.(requests := s.requests[id := s.requests[id].(ok := true)],
           accepted := s.accepted + (if s.requests[id].sent.Some? then {s.requests[id].sent.value} else {}))
      else s
    case Persist(id) =>
      if id in s.requests && s.requests[id].ok then PersistAccepted(s.(requests := s.requests - {id})) else s
    case Failed(id) => s.(requests := s.requests - {id})
    case Submit(token) => if token == "" then s else SetToken(s, Some(token), Submitted)
    case StorageChanges(saved, available) => s.(saved := saved, available := available)
  }

  /** `boot`: a link's token is tried ahead of the saved one. */
  function Boot(linked: Option<string>, saved: Option<string>, available: bool): State {
    var blank := State(None, NoSource, false, saved, available, map[], {}, []);
    if Truthy(linked).Some? then SetToken(blank, linked, Hash) else SetToken(blank, Saved(blank), Stored)
  }

  function Run(s: State, es: seq<Event>): State {
    if es == [] then s else Step(Run(s, es[..|es| - 1]), es[|es| - 1])
  }

  // ---- a refusal of a replaced token --------------------------------------------------------

  predicate Late(s: State, e: Event) {
    e.Refused? && e.id in s.requests && !s.requests[e.id].ok && s.requests[e.id].sent != s.token
  }

  /** The same events, with every refusal of a replaced token turned into a lost answer. */
  function Softened(s: State, es: seq<Event>): seq<Event> {
    if es == [] then []
    else
      var earlier, last := es[..|es| - 1], es[|es| - 1];
      Softened(s, earlier) + [if Late(Run(s, earlier), last) then Failed(last.id) else last]
  }

  /** No run can tell a refusal of a replaced token from an answer that never came. */
  lemma {:induction false} LateRefusalsAreSilent(s: State, es: seq<Event>)
    ensures Run(s, Softened(s, es)) == Run(s, es)
  {
    if es != [] {
      var earlier, last := es[..|es| - 1], es[|es| - 1];
      LateRefusalsAreSilent(s, earlier);
      var soft := Softened(s, earlier);
      var e := if Late(Run(s, earlier), last) then Failed(last.id) else last;
      assert (soft + [e])[..|soft|] == soft;
    }
  }

  // ---- reported once ------------------------------------------------------------------------

  /** Reports since the token was last set. */
  function ReportsSinceSet(log: seq<Note>): nat {
    if log == [] then 0
    else
      match log[|log| - 1]
      case TokenSet(_) => 0
      case Reported(_) => 1 + ReportsSinceSet(log[..|log| - 1])
      case _ => ReportsSinceSet(log[..|log| - 1])
  }

  function Fallbacks(log: seq<Note>): nat {
    if log == [] then 0
    else Fallbacks(log[..|log| - 1]) + (if log[|log| - 1].FellBack? then 1 else 0)
  }

  ghost predicate ReportedOnce(log: seq<Note>) {
    ReportsSinceSet(log) <= 1 && (log == [] || ReportedOnce(log[..|log| - 1]))
  }

  lemma {:induction false} NoteAdded(log: seq<Note>, n: Note)
    ensures Fallbacks(log + [n]) == Fallbacks(log) + (if n.FellBack? then 1 else 0)
    ensures ReportsSinceSet(log + [n]) ==
            (match n case TokenSet(_) => 0 case Reported(_) => 1 + ReportsSinceSet(log) case _ => ReportsSinceSet(log))
    ensures ReportedOnce(log) && ReportsSinceSet(log + [n]) <= 1 ==> ReportedOnce(log + [n])
  {
    assert (log + [n])[..|log|] == log;
  }

  ghost predicate Inv(s: State) {
    && ReportedOnce(s.log)
    && (!s.rejected ==> ReportsSinceSet(s.log) == 0)
    && Fallbacks(s.log) <= (if s.source.Hash? then 0 else 1)
    && (s.token == None ==> s.source.NoSource?)
    && (s.rejected ==> s.token == None)
    && s.token != Some("")
    && (forall id | id in s.requests && s.requests[id].ok && s.requests[id].sent.Some? ::
          s.requests[id].sent.value in s.accepted)
  }

  lemma SetInv(s: State, token: Option<string>, source: Source)
    requires Inv(s) || (Inv(s.(token := None, source := NoSource, rejected := true)) && s.rejected)
    requires !source.Hash?
    ensures Inv(SetToken(s, token, source))
  {
    var kept := if Truthy(token).Some? then source else NoSource;
    NoteAdded(s.log, TokenSet(kept));
  }

  lemma CallbackInv(s: State)
    requires Inv(s) && !s.rejected
    ensures Inv(OnUnauthorized(Forget(s), RejectionOf(s)))
  {
    var rejection := RejectionOf(s);
    var told := s.log + [Reported(rejection)];
    NoteAdded(s.log, Reported(rejection));
    NoteAdded(told, FellBack);
    NoteAdded(told, Erased);
    NoteAdded(told + [FellBack], TokenSet(Stored));
    NoteAdded(told + [FellBack], TokenSet(NoSource));
  }

  lemma InvNext(s: State, e: Event)
    requires Inv(s)
    ensures Inv(Step(s, e))
  {
    match e
    case Refused(id) =>
      if id in s.requests && !s.requests[id].ok && s.requests[id].sent == s.token && !s.rejected {
        CallbackInv(s.(requests := s.requests - {id}));
      }
    case Submit(token) => SetInv(s, Some(token), Submitted);
    case _ =>
  }

  lemma BootInv(linked: Option<string>, saved: Option<string>, available: bool)
    ensures Inv(Boot(linked, saved, available))
  {
  }

  lemma {:induction false} InvKept(s: State, es: seq<Event>)
    requires Inv(s)
    ensures Inv(Run(s, es))
  {
    if es != [] {
      InvKept(s, es[..|es| - 1]);
      InvNext(Run(s, es[..|es| - 1]), es[|es| - 1]);
    }
  }

  /** In every run, the callback fires at most once between two settings of the token. */
  lemma {:induction false} AtMostOneReportPerToken(
    linked: Option<string>, saved: Option<string>, available: bool, es: seq<Event>, n: nat)
    requires n <= |Run(Boot(linked, saved, available), es).log|
    ensures ReportsSinceSet(Run(Boot(linked, saved, available), es).log[..n]) <= 1
  {
    BootInv(linked, saved, available);
    InvKept(Boot(linked, saved, available), es);
    PrefixReportedOnce(Run(Boot(linked, saved, available), es).log, n);
  }

  lemma {:induction false} PrefixReportedOnce(log: seq<Note>, n: nat)
    requires ReportedOnce(log) && n <= |log|
    ensures ReportsSinceSet(log[..n]) <= 1
    decreases |log|
  {
    if n == |log| {
      assert log[..n] == log;
    } else {
      assert log[..|log| - 1][..n] == log[..n];
      PrefixReportedOnce(log[..|log| - 1], n);
    }
  }

  /** A link's token falls back to the saved one at most once; without a link, never. */
  lemma {:induction false} AtMostOneFallback(
    linked: Option<string>, saved: Option<string>, available: bool, es: seq<Event>)
    ensures Fallbacks(Run(Boot(linked, saved, available), es).log) <= (if Truthy(linked).Some? then 1 else 0)
  {
    BootInv(linked, saved, available);
    InvKept(Boot(linked, saved, available), es);
    if Truthy(linked) == None {
      NoteAdded([], TokenSet(Stored));
      NoteAdded([], TokenSet(NoSource));
      assert forall n: Note :: [] + [n] == [n];
      NoLinkNoFallback(Boot(linked, saved, available), es);
    }
  }

  lemma {:induction false} NoLinkNoFallback(s: State, es: seq<Event>)
    requires !s.source.Hash?
    ensures !Run(s, es).source.Hash?
    ensures Fallbacks(Run(s, es).log) == Fallbacks(s.log)
  {
    if es != [] {
      var earlier := Run(s, es[..|es| - 1]);
      NoLinkNoFallback(s, es[..|es| - 1]);
      NoFallbackStep(earlier, es[|es| - 1]);
    }
  }

  lemma NoFallbackCallback(s: State)
    requires !s.source.Hash?
    ensures var after := OnUnauthorized(Forget(s), RejectionOf(s));
            !after.source.Hash? && Fallbacks(after.log) == Fallbacks(s.log)
  {
    var told := s.log + [Reported(RejectionOf(s))];
    NoteAdded(s.log, Reported(RejectionOf(s)));
    NoteAdded(told, Erased);
  }

  lemma NoFallbackStep(s: State, e: Event)
    requires !s.source.Hash?
    ensures !Step(s, e).source.Hash?
    ensures Fallbacks(Step(s, e).log) == Fallbacks(s.log)
  {
    match e
    case Refused(id) =>
      if id in s.requests && !s.requests[id].ok && s.requests[id].sent == s.token && !s.rejected {
        NoFallbackCallback(s.(requests := s.requests - {id}));
      }
    case Submit(token) => NoteAdded(s.log, TokenSet(Submitted));
    case _ =>
  }

  // ---- what the user sees -------------------------------------------------------------------

  /** The server refuses a request that carried the current token. */
  predicate RefusesCurrent(s: State, e: Event) {
    e.Refused? && e.id in s.requests && !s.requests[e.id].ok && s.requests[e.id].sent == s.token
  }

  /** A link's token was refused while another one is saved. */
  predicate HasFallback(s: State) {
    s.source.Hash? && s.available && s.saved.Some? && s.saved != s.token
  }

  /**
   The current token is refused, told from the two stores. The first refusal is reported, with a
   message exactly for a typed token; a link's token gives way to a different saved one; any other
   is forgotten, and its saved copy with it. A refusal after the first changes nothing.
   */
  lemma RefusalIs(s: State, e: Event)
    requires Inv(s) && RefusesCurrent(s, e)
    ensures var after := Step(s, e).(requests := s.requests);
            var message := if s.source.Submitted? then Some("That token was rejected.") else None;
            var told := s.log + [Reported(Rejection(message, s.token, s.source))];
            if s.rejected then after == s
            else if HasFallback(s) then
              && after.token == Truthy(s.saved) && after.saved == s.saved && !after.rejected
              && after.source == (if s.saved == Some("") then NoSource else Stored)
              && after.log == told + [FellBack] + [TokenSet(after.source)]
            else
              var erased := s.available && s.saved.Some? && s.saved == s.token;
              && after.token == None && after.source.NoSource? && after.rejected
              && after.saved == (if erased then None else s.saved)
              && after.log == told + (if erased then [Erased] else [])
  {
  }

  /** The token changes only when the user types one or the server refuses the current one. */
  lemma TokenMoves(s: State, e: Event)
    requires Inv(s)
    ensures Step(s, e).token != s.token ==> e.Submit? || RefusesCurrent(s, e)
    ensures e.Submit? && e.token != "" ==>
              Step(s, e) == s.(token := Some(e.token), source := Submitted, rejected := false,
                               log := s.log + [TokenSet(Submitted)])
    ensures e.StorageChanges? ==> Step(s, e) == s.(saved := e.saved, available := e.available)
    ensures |Step(s, e).log| > |s.log| ==> (e.Submit? && e.token != "") || (RefusesCurrent(s, e) && !s.rejected)
  {
  }

  /** An accepted answer is persisted while the page has a token. */
  predicate Persists(s: State, e: Event) {
    e.Persist? && e.id in s.requests && s.requests[e.id].ok && s.token.Some?
  }

  /** The user typed the token in, and it has been neither refused nor persisted since. */
  predicate Typed(start: State, es: seq<Event>) {
    && es != []
    && var earlier, last := es[..|es| - 1], es[|es| - 1];
       var s := Run(start, earlier);
       || (last.Submit? && last.token != "")
       || (Typed(start, earlier) && !RefusesCurrent(s, last) && !Persists(s, last))
  }

  /**
   So the message is shown exactly for a token that the user typed and no answer has made permanent:
   the refusal that comes next reports it if and only if this holds.
   */
  lemma {:induction false} MessageOnlyForTyped(linked: Option<string>, saved: Option<string>, available: bool,
                                               es: seq<Event>)
    ensures var start := Boot(linked, saved, available);
            Run(start, es).source.Submitted? <==> Typed(start, es)
  {
    var start := Boot(linked, saved, available);
    if es != [] {
      var earlier := es[..|es| - 1];
      MessageOnlyForTyped(linked, saved, available, earlier);
      BootInv(linked, saved, available);
      InvKept(start, earlier);
      SourceStep(Run(start, earlier), es[|es| - 1]);
    }
  }

  lemma SourceStep(s: State, e: Event)
    requires Inv(s)
    ensures Step(s, e).source.Submitted? <==>
            (e.Submit? && e.token != "") || (s.source.Submitted? && !RefusesCurrent(s, e) && !Persists(s, e))
  {
  }

  /** A link's token is tried first, and without one the saved token; neither is written anywhere yet. */
  lemma BootIs(linked: Option<string>, saved: Option<string>, available: bool)
    ensures var s := Boot(linked, saved, available);
            && s.saved == saved && !s.rejected && s.requests == map[]
            && (linked.Some? && linked.value != "" ==> s.token == linked && s.source.Hash?)
            && (linked in {None, Some("")} ==>
                  s.token == (if available && saved != Some("") then saved else None)
                  && (s.token.Some? ==> s.source.Stored?))
  {
  }

  // ---- the saved token ----------------------------------------------------------------------

  /** A token the server has accepted is saved by the answer, if the storage works; once saved, left alone. */
  lemma AcceptedIsSaved(s: State, e: Event)
    requires Inv(s) && Persists(s, e)
    ensures Step(s, e) == s.(requests := s.requests - {e.id}, source := Stored,
                             saved := if s.available && !s.source.Stored? then s.token else s.saved)
  {
  }

  /** The page erases the saved token only when that very token, still current, was refused. */
  lemma {:induction false} ErasedOnlyWhenRefused(
    linked: Option<string>, saved: Option<string>, available: bool, es: seq<Event>, e: Event)
    requires var s := Run(Boot(linked, saved, available), es);
             s.saved.Some? && Step(s, e).saved == None && !e.StorageChanges?
    ensures var s := Run(Boot(linked, saved, available), es);
            e.Refused? && e.id in s.requests && s.requests[e.id].sent == s.saved == s.token && !s.rejected
  {
    BootInv(linked, saved, available);
    InvKept(Boot(linked, saved, available), es);
  }

  /** Whoever persists the current token has had that token accepted. */
  predicate Guarded(s: State, e: Event) {
    e.Persist? && e.id in s.requests && s.requests[e.id].ok ==> s.requests[e.id].sent == s.token
  }

  predicate AllGuarded(s: State, es: seq<Event>) {
    es == [] || (AllGuarded(s, es[..|es| - 1]) && Guarded(Run(s, es[..|es| - 1]), es[|es| - 1]))
  }

  /** The storage is only ever written by this page. */
  predicate Alone(es: seq<Event>) {
    forall e | e in es :: !e.StorageChanges?
  }

  /** If every persist is guarded, what the page saves has been accepted. */
  lemma {:induction false} SavedIsAccepted(linked: Option<string>, saved: Option<string>, available: bool, es: seq<Event>)
    requires AllGuarded(Boot(linked, saved, available), es) && Alone(es)
    ensures var s := Run(Boot(linked, saved, available), es);
            s.saved == saved || s.saved == None || s.saved.value in s.accepted
  {
    if es != [] {
      var start, earlier := Boot(linked, saved, available), es[..|es| - 1];
      SavedIsAccepted(linked, saved, available, earlier);
      BootInv(linked, saved, available);
      InvKept(start, earlier);
      SavedStep(Run(start, earlier), es[|es| - 1]);
    }
  }

  lemma SavedStep(s: State, e: Event)
    requires Inv(s) && Guarded(s, e) && !e.StorageChanges?
    ensures s.accepted <= Step(s, e).accepted
    ensures Step(s, e).saved in {s.saved, None} || Step(s, e).saved.value in s.accepted
  {
  }

  /**
   The code has no such guard. A persist overwrites the saved token with one the server has not
   accepted exactly when it answers a request that carried another token, and the current token is
   unsaved and unaccepted.
   */
  lemma {:induction false} UnacceptedSavedIff(linked: Option<string>, saved: Option<string>, available: bool,
                                              es: seq<Event>, id: nat)
    requires var s := Run(Boot(linked, saved, available), es);
             id in s.requests && s.requests[id].ok && s.available && s.token.Some? && s.token.value !in s.accepted
             && s.saved != s.token
    ensures var s := Run(Boot(linked, saved, available), es);
            Step(s, Persist(id)).saved == s.token <==> !s.source.Stored?
    ensures var s := Run(Boot(linked, saved, available), es);
            s.requests[id].sent != s.token
  {
    BootInv(linked, saved, available);
    InvKept(Boot(linked, saved, available), es);
  }

  const MISTYPED := [Send(0), Submit("typo"), Accepted(0), Persist(0), Send(1), Refused(1)]

  /**
   A working saved token is lost to a typo: the poll in flight across the submit persists the typo,
   whose refusal then erases the saved copy, and without a message.
   */
  lemma WorkingTokenIsLost()
    ensures var s := Run(Boot(None, Some("good"), true), MISTYPED);
            && s.accepted == {"good"} && s.saved == None
            && s.log == [TokenSet(Stored), TokenSet(Submitted), Reported(Rejection(None, Some("typo"), Stored)), Erased]
  {
    var start := Boot(None, Some("good"), true);
    MistypedFirst();
    RunPrefix(start, MISTYPED, 3);
    RunPrefix(start, MISTYPED, 4);
    RunPrefix(start, MISTYPED, 5);
    assert MISTYPED[..6] == MISTYPED;
    MistypedThen();
  }

  const LATE := State(Some("typo"), Submitted, false, Some("good"), true, map[0 := Request(Some("good"), true)],
                      {"good"}, [TokenSet(Stored), TokenSet(Submitted)])

  lemma MistypedFirst()
    ensures Run(Boot(None, Some("good"), true), MISTYPED[..3]) == LATE
  {
    var start := Boot(None, Some("good"), true);
    RunPrefix(start, MISTYPED, 0);
    RunPrefix(start, MISTYPED, 1);
    RunPrefix(start, MISTYPED, 2);
    var sent := Step(start, Send(0));
    assert sent == State(Some("good"), Stored, false, Some("good"), true, map[0 := Request(Some("good"), false)],
                         {}, [TokenSet(Stored)]);
    assert Step(sent, Submit("typo")) == sent.(token := Some("typo"), source := Submitted,
                                               log := [TokenSet(Stored), TokenSet(Submitted)]);
  }

  lemma MistypedThen()
    ensures var s := Step(Step(Step(LATE, Persist(0)), Send(1)), Refused(1));
            && s.accepted == {"good"} && s.saved == None
            && s.log == [TokenSet(Stored), TokenSet(Submitted), Reported(Rejection(None, Some("typo"), Stored)), Erased]
  {
    var persisted := Step(LATE, Persist(0));
    assert persisted == LATE.(source := Stored, saved := Some("typo"), requests := map[]);
    var sent := Step(persisted, Send(1));
    assert sent == persisted.(requests := map[1 := Request(Some("typo"), false)]);
    assert RejectionOf(sent) == Rejection(None, Some("typo"), Stored);
  }

  lemma {:induction false} RunPrefix(s: State, es: seq<Event>, n: nat)
    requires n < |es|
    ensures Run(s, es[..n + 1]) == Step(Run(s, es[..n]), es[n])
  {
    assert es[..n + 1][..n] == es[..n];
  }

  // ---- the objects --------------------------------------------------------------------------

  class Auth {
    var token: Option<string>
    var source: Source
    var rejected: bool

    constructor ()
      ensures token == None && source == NoSource && !rejected
    {
      token, source, rejected := None, NoSource, false;
    }

    method Set(token: Option<string>, source: Source)
      modifies this
      ensures this.token == Truthy(token) && !rejected
      ensures this.source == if Truthy(token).Some? then source else NoSource
    {
      this.token := Truthy(token);
      this.source := if this.token.Some? then source else NoSource;
      rejected := false;
    }

    /** The rejection to show, unless the refused token has been replaced. */
    method Reject(sent: Option<string>) returns (rejection: Option<Rejection>)
      modifies this
      ensures rejection.Some? <==> sent == old(token)
      ensures rejection == None ==> token == old(token) && source == old(source) && rejected == old(rejected)
      ensures rejection.Some? ==> token == None && source == NoSource && rejected
      ensures rejection.Some? ==>
                rejection.value.token == old(token) && rejection.value.source == old(source)
                && (rejection.value.message ==
                    if old(source).Submitted? then Some("That token was rejected.") else None)
    {
      if sent != token {
        return None;
      }
      rejection := Some(Rejection(if source.Submitted? then Some("That token was rejected.") else None, token, source));
      token, source, rejected := None, NoSource, true;
    }
  }

  class TokenStore {
    var item: Option<string>
    var available: bool

    constructor (item: Option<string>, available: bool)
      ensures this.item == item && this.available == available
    {
      this.item, this.available := item, available;
    }

    method Get() returns (token: Option<string>)
      ensures token == if available then item else None
    {
      token := if available then item else None;
    }

    method Set(token: Option<string>)
      modifies this`item
      ensures item == if available then Truthy(token) else old(item)
    {
      if available {
        item := Truthy(token);
      }
    }
  }

  class Page {
    const auth: Auth
    const tokens: TokenStore
    ghost var requests: map<nat, Request>
    ghost var accepted: set<string>
    ghost var log: seq<Note>

    ghost function View(): State
      reads this, auth, tokens
    {
      State(auth.token, auth.source, auth.rejected, tokens.item, tokens.available, requests, accepted, log)
    }

    constructor (linked: Option<string>, saved: Option<string>, available: bool)
      ensures fresh(auth) && fresh(tokens) && View() == Boot(linked, saved, available)
    {
      auth := new Auth();
      tokens := new TokenStore(saved, available);
      requests, accepted, log := map[], {}, [];
      new;
      if linked.Some? && linked.value != "" {
        auth.Set(linked, Hash);
      } else {
        var stored := tokens.Get();
        auth.Set(stored, Stored);
      }
      log := [TokenSet(auth.source)];
    }

    /** The callback: carry on with the saved token, or ask, forgetting a saved token refused. */
    method Refuse(rejection: Rejection)
      modifies auth, tokens`item, this`log
      ensures View() == OnUnauthorized(old(View()), rejection)
    {
      log := log + [Reported(rejection)];
      var stored := tokens.Get();
      var plan := PlanRejection(rejection, stored);
      match plan {
        case Fallback(token) =>
          auth.Set(Some(token), Stored);
          log := log + [FellBack] + [TokenSet(auth.source)];
        case Connect(clear) =>
          if clear {
            tokens.Set(None);
            log := log + [Erased];
          }
      }
    }

    method HandleRefusal(sent: Option<string>)
      modifies auth, tokens`item, this`log
      ensures View() == Unauthorized(old(View()), sent)
    {
      var first := !auth.rejected;
      var outcome := auth.Reject(sent);
      if outcome.Some? && first {
        Refuse(outcome.value);
      }
    }

    /** `persistAcceptedToken`. */
    method PersistAcceptedToken()
      modifies auth`source, tokens`item
      ensures View() == PersistAccepted(old(View()))
    {
      if auth.token == None || auth.source.Stored? {
        return;
      }
      tokens.Set(auth.token);
      auth.source := Stored;
    }

    method OnSubmit(token: string)
      modifies auth, this`log
      ensures View() == Step(old(View()), Submit(token))
    {
      if token == "" {
        return;
      }
      auth.Set(Some(token), Submitted);
      log := log + [TokenSet(auth.source)];
    }

    /** A request captures the token that it carries. */
    method OnSend(id: nat)
      modifies this`requests
      ensures View() == Step(old(View()), Send(id))
    {
      requests := if id in requests then requests else requests[id := Request(auth.token, false)];
    }
  }
}
