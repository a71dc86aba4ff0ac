/**
 `terminal.ts`: the one attach socket of the page, its reconnect timer, why it stopped, and what
 brings it back. The module variables are fields; a browser event is a method. `Terminal` is the
 abstract state the methods are proved against.
 */
module TerminalAttach {
  import opened Wrappers
  import opened AttachProtocol

  datatype Halt = NotHalted | HaltedAuth | HaltedGone

  datatype PaneKind = AgentPane | ShellPane

  /** `Closing` is any ready state past OPEN before the close event has been dispatched. */
  datatype ReadyState = Connecting | Open | Closing

  datatype SocketView = SocketView(session: string, ready: ReadyState, sentToken: Option<string>)

  datatype Terminal = Terminal(
    ws: Option<SocketView>,
    life: Lifecycle,
    lifeNo: nat,
    halt: Halt,
    recovery: Recovery,
    timer: Option<string>,
    kind: PaneKind,
    selected: Option<string>,
    visible: bool,
    token: Option<string>,
    sockets: nat
  )

  // ---- the functions of the module, on the abstract state -----------------------------------

  function WithoutSocket(t: Terminal): Terminal {
    t.(timer := None, ws := None)
  }

  function Opened(t: Terminal, id: string): Terminal {
    t.(timer := None, ws := Some(SocketView(id, Connecting, None)), sockets := t.sockets + 1)
  }

  function Started(t: Terminal, id: string, user: bool): Terminal {
    Opened(t.(life := FRESH_LIFECYCLE, lifeNo := t.lifeNo + 1, halt := NotHalted,
              recovery := if user then FRESH_RECOVERY else t.recovery), id)
  }

  function Resumed(t: Terminal): Terminal {
    if t.halt != NotHalted && t.selected.Some? then Started(t, t.selected.value, true) else t
  }

  datatype SelectAction = AttachTo | Reattach | Nothing

  /** What clicking a session does; re-clicking the selected one retries an attach that is gone. */
  function ActionFor(selected: Option<string>, clicked: string, halt: Halt): SelectAction {
    if selected != Some(clicked) then AttachTo
    else if halt.HaltedGone? then Reattach
    else Nothing
  }

  datatype Event =
    | Click(id: string)
    | DeleteSelected
    | StatusPolled(status: Option<string>, now: int)
    | ConnectSubmitted(token: string)
    | ConnectAccepted
    | HttpRefused(sent: Option<string>, fallback: Option<string>)
    | RestartSelected
    | ToggleShell
    | SocketOpened
    | SocketClosingStarted
    | FrameArrived(msg: ServerControl, now: int)
    | SocketClosed(now: int, fallback: Option<string>)
    | TimerFired
    | VisibilityChanged(visible: bool)

  /**
   The server refused a token, over HTTP or on the socket: the page forgets it unless it is no
   longer the current one, and may put a saved token in its place and resume.
   */
  function Refused(t: Terminal, sent: Option<string>, fallback: Option<string>): Terminal {
    if sent != t.token then t
    else if fallback.Some? then Resumed(t.(token := fallback))
    else t.(token := None)
  }

  /** The end of an attach whose token was refused: retried if that is no longer the current token. */
  function AuthEnded(t: Terminal, session: string, sent: Option<string>, fallback: Option<string>): Terminal {
    if sent != t.token then Started(t, session, true)
    else Refused(t.(halt := HaltedAuth), sent, fallback)
  }

  function CloseHandled(t: Terminal, now: int, fallback: Option<string>): Terminal {
    if t.ws.None? || t.selected != Some(t.ws.value.session) then t
    else
      var (life, decision) := Closed(t.life, now);
      var dropped := t.(ws := None, life := life);
      match decision
      case Reconnect(_) =>
        if dropped.timer.Some? then dropped else dropped.(timer := Some(t.ws.value.session))
      case AuthRejected => AuthEnded(dropped, t.ws.value.session, t.ws.value.sentToken, fallback)
      case Gone(_) => dropped.(halt := HaltedGone, recovery := WentGone(t.recovery, now))
  }

  function Step(t: Terminal, e: Event): Terminal {
    match e
    case Click(id) =>
      (match ActionFor(t.selected, id, t.halt)
       case AttachTo => Started(WithoutSocket(t.(selected := Some(id), kind := AgentPane)), id, true)
       case Reattach => Started(WithoutSocket(t), id, true)
       case Nothing => t)
    case DeleteSelected => WithoutSocket(t).(selected := None, halt := NotHalted)
    case StatusPolled(status, now) =>
      if t.halt.HaltedGone? && t.selected.Some? then
        var (recovery, again) := Polled(t.recovery, status, now);
        var polled := t.(recovery := recovery);
        if again then Started(WithoutSocket(polled), t.selected.value, false) else polled
      else t
    case ConnectSubmitted(token) => t.(token := Some(token))
    case ConnectAccepted => Resumed(t)
    case HttpRefused(sent, fallback) => Refused(t, sent, fallback)
    case RestartSelected =>
      if t.selected.Some? then Started(WithoutSocket(t), t.selected.value, true) else t
    case ToggleShell =>
      if t.selected.None? then t
      else Started(WithoutSocket(t.(kind := if t.kind.ShellPane? then AgentPane else ShellPane)),
                   t.selected.value, true)
    case SocketOpened =>
      if t.ws.Some? && t.ws.value.ready.Connecting?
      then t.(ws := Some(t.ws.value.(ready := Open, sentToken := t.token))) else t
    case SocketClosingStarted =>
      if t.ws.Some? then t.(ws := Some(t.ws.value.(ready := Closing))) else t
    case FrameArrived(msg, now) =>
      if t.ws.Some? && t.ws.value.ready.Open?
      then t.(life := Heard(t.life, msg, now), recovery := if msg.Ready? then BecameReady(t.recovery) else t.recovery)
      else t
    case SocketClosed(now, fallback) => CloseHandled(t, now, fallback)
    case TimerFired =>
      if t.timer.None? then t
      else if t.selected == t.timer && t.visible then Opened(t, t.timer.value)
      else t.(timer := None)
    case VisibilityChanged(visible) =>
      var seen := t.(visible := visible);
      if !visible || t.selected.None? || t.halt != NotHalted then seen
      else if t.ws.None? || t.ws.value.ready.Closing? then Opened(seen, t.selected.value)
      else seen
  }

  // ---- the module itself --------------------------------------------------------------------

  class Socket {
    const session: string
    const life: AttachLifecycle
    var ready: ReadyState
    var sentToken: Option<string>

    constructor (session: string, life: AttachLifecycle)
      ensures this.session == session && this.life == life && ready == Connecting && sentToken == None
    {
      this.session := session;
      this.life := life;
      ready, sentToken := Connecting, None;
    }
  }

  class AttachTerminal {
    var ws: Socket?
    var lifecycle: AttachLifecycle
    var halt: Halt
    var recovery: GoneRecovery
    var timer: Option<string>
    var attachKind: PaneKind
    var selected: Option<string>
    var visible: bool
    var token: Option<string>
    ghost var lifeNo: nat
    ghost var sockets: nat

    ghost function Repr(): set<object>
      reads this
    {
      var owned: set<object> := {this, lifecycle, recovery};
      if ws == null then owned else owned + {ws as Socket}
    }

    /** The live socket was opened for the current lifecycle, which its handlers captured. */
    ghost predicate Valid()
      reads this, ws
    {
      ws != null ==> ws.life == lifecycle
    }

    ghost function View(): Terminal
      reads Repr()
    {
      Terminal(if ws == null then None else Some(SocketView(ws.session, ws.ready, ws.sentToken)),
               lifecycle.View(), lifeNo, halt, recovery.View(), timer, attachKind, selected, visible, token, sockets)
    }

    constructor ()
      ensures Valid() && fresh(Repr()) && Initial(View()) && Safe(View())
    {
      ws := null;
      lifecycle := new AttachLifecycle();
      recovery := new GoneRecovery();
      halt, timer, attachKind, selected, visible, token := NotHalted, None, AgentPane, None, true, None;
      lifeNo, sockets := 0, 0;
    }

    method CloseSocket()
      modifies this
      ensures Valid() && lifecycle == old(lifecycle) && recovery == old(recovery) && ws == null
      ensures View() == WithoutSocket(old(View()))
    {
      if timer.Some? {
        timer := None;
      }
      if ws != null {
        // The handlers are detached: nothing this socket still does is heard.
        ws := null;
      }
    }

    method OpenSocket(id: string)
      modifies this
      ensures Valid() && lifecycle == old(lifecycle) && recovery == old(recovery) && fresh(ws)
      ensures View() == Opened(old(View()), id)
    {
      CloseSocket();
      ws := new Socket(id, lifecycle);
      sockets := sockets + 1;
    }

    method StartAttach(id: string, user: bool)
      modifies this
      ensures Valid() && fresh(Repr() - old(Repr()))
      ensures View() == Started(old(View()), id, user)
    {
      lifecycle := new AttachLifecycle();
      lifeNo := lifeNo + 1;
      halt := NotHalted;
      if user {
        recovery := new GoneRecovery();
      }
      OpenSocket(id);
    }

    /** A click in the tree: `selectSession` and, for another session, `attach`. */
    method Click(id: string)
      requires Valid()
      modifies this
      ensures Valid() && fresh(Repr() - old(Repr()))
      ensures View() == Step(old(View()), Event.Click(id))
    {
      match ActionFor(selected, id, halt)
      case Nothing =>
      case Reattach => RestartSelected();
      case AttachTo =>
        selected := Some(id);
        attachKind := AgentPane;
        CloseSocket();
        StartAttach(id, true);
    }

    method DeleteSelected()
      requires Valid()
      modifies this
      ensures Valid() && fresh(Repr() - old(Repr()))
      ensures View() == Step(old(View()), Event.DeleteSelected)
    {
      selected := None;
      CloseSocket();
      halt := NotHalted;
    }

    method OnSelectedStatus(status: Option<string>, now: int)
      requires Valid()
      modifies Repr()
      ensures Valid() && fresh(Repr() - old(Repr()))
      ensures View() == Step(old(View()), StatusPolled(status, now))
    {
      if halt == HaltedGone && selected.Some? {
        var again := recovery.OnPoll(status, now);
        if again {
          CloseSocket();
          StartAttach(selected.value, false);
        }
      }
    }

    method Resume()
      requires Valid()
      modifies this
      ensures Valid() && fresh(Repr() - old(Repr()))
      ensures View() == Resumed(old(View()))
    {
      if halt != NotHalted && selected.Some? {
        StartAttach(selected.value, true);
      }
    }

    /** `reattach`, after a restart of the selected session. */
    /** The page's answer to a refusal; `fallback` is the saved token it puts in place, if it does. */
    method OnUnauthorized(sent: Option<string>, fallback: Option<string>)
      requires Valid()
      modifies this
      ensures Valid() && fresh(Repr() - old(Repr()))
      ensures View() == Refused(old(View()), sent, fallback)
    {
      if sent != token {
        return;
      }
      token := fallback;
      if fallback.Some? {
        Resume();
      }
    }

    method RestartSelected()
      requires Valid()
      modifies this
      ensures Valid() && fresh(Repr() - old(Repr()))
      ensures View() == Step(old(View()), Event.RestartSelected)
    {
      if selected.None? {
        return;
      }
      CloseSocket();
      StartAttach(selected.value, true);
    }

    method ToggleShell()
      requires Valid()
      modifies this
      ensures Valid() && fresh(Repr() - old(Repr()))
      ensures View() == Step(old(View()), Event.ToggleShell)
    {
      if selected.None? {
        return;
      }
      attachKind := if attachKind == ShellPane then AgentPane else ShellPane;
      CloseSocket();
      StartAttach(selected.value, true);
    }

    method OnOpen()
      requires Valid()
      modifies Repr()
      ensures Valid() && fresh(Repr() - old(Repr()))
      ensures View() == Step(old(View()), SocketOpened)
    {
      if ws != null && ws.ready == Connecting {
        ws.ready := Open;
        ws.sentToken := token;
      }
    }

    method OnClosingStarted()
      requires Valid()
      modifies Repr()
      ensures Valid() && fresh(Repr() - old(Repr()))
      ensures View() == Step(old(View()), SocketClosingStarted)
    {
      if ws != null {
        ws.ready := Closing;
      }
    }

    method OnMessage(msg: ServerControl, now: int)
      requires Valid()
      modifies Repr()
      ensures Valid() && fresh(Repr() - old(Repr()))
      ensures View() == Step(old(View()), FrameArrived(msg, now))
    {
      if ws != null && ws.ready == Open {
        if msg == Ready {
          recovery.OnReady();
        }
        ws.life.OnControl(msg, now);
      }
    }

    /** `onclose`; `fallback` is the saved token the rejection hook put in place, if it did. */
    method OnClose(now: int, fallback: Option<string>)
      requires Valid()
      modifies Repr()
      ensures Valid() && fresh(Repr() - old(Repr()))
      ensures View() == CloseHandled(old(View()), now, fallback)
    {
      hide Step, Refused, Resumed, Started, Heard;
      if ws == null || selected != Some(ws.session) {
        return;
      }
      var sock := ws;
      ws := null;
      var next := sock.life.OnClose(now);
      match next
      case Reconnect(delayMs) => ScheduleReconnect(sock.session);
      case AuthRejected =>
        if sock.sentToken != token {
          StartAttach(sock.session, true);
          return;
        }
        halt := HaltedAuth;
        OnUnauthorized(sock.sentToken, fallback);
      case Gone(message) =>
        halt := HaltedGone;
        recovery.OnGone(now);
    }

    method ScheduleReconnect(id: string)
      requires Valid()
      modifies this
      ensures Valid() && Repr() == old(Repr()) && lifecycle == old(lifecycle) && recovery == old(recovery)
      ensures ws == old(ws)
      ensures View() == if old(View()).timer.Some? then old(View()) else old(View()).(timer := Some(id))
    {
      if timer.Some? {
        return;
      }
      timer := Some(id);
    }

    method OnTimer()
      requires Valid()
      modifies this
      ensures Valid() && fresh(Repr() - old(Repr()))
      ensures View() == Step(old(View()), TimerFired)
    {
      if timer.Some? {
        var id := timer.value;
        timer := None;
        if selected == Some(id) && visible {
          OpenSocket(id);
        }
      }
    }

    method OnVisibilityChange(nowVisible: bool)
      requires Valid()
      modifies this
      ensures Valid() && fresh(Repr() - old(Repr()))
      ensures View() == Step(old(View()), VisibilityChanged(nowVisible))
    {
      visible := nowVisible;
      if !visible || selected.None? || halt != NotHalted {
        return;
      }
      if ws == null || ws.ready == Closing {
        if timer.Some? {
          timer := None;
        }
        OpenSocket(selected.value);
      }
    }
  }

  // ---- safety over every run ----------------------------------------------------------------

  function Count(b: bool): nat {
    if b then 1 else 0
  }

  /** How many of a live socket, a pending reconnect and a halt there are. */
  function Standing(t: Terminal): nat {
    Count(t.ws.Some?) + Count(t.timer.Some?) + Count(t.halt != NotHalted)
  }

  predicate Safe(t: Terminal) {
    && Standing(t) <= 1
    && (t.selected.Some? && t.visible ==> Standing(t) == 1)
    && (Standing(t) == 1 ==> t.selected.Some?)
    && (t.ws.Some? ==> Some(t.ws.value.session) == t.selected)
    && (t.timer.Some? ==> t.timer == t.selected && t.life.final.None?)
    && (t.halt != NotHalted ==> t.life.final.Some?)
    && (t.selected.Some? && t.ws.None? && t.halt.NotHalted? ==> t.life.final.None?)
    && (t.life.final.Some? ==> !t.life.final.value.Reconnect?)
  }

  function Run(t: Terminal, es: seq<Event>): Terminal
    decreases |es|
  {
    if es == [] then t else Run(Step(t, es[0]), es[1..])
  }

  predicate Initial(t: Terminal) {
    t.ws.None? && t.halt.NotHalted? && t.timer.None? && t.selected.None? && t.life == FRESH_LIFECYCLE
  }

  lemma SafetyKept(t: Terminal, e: Event)
    requires Safe(t)
    ensures Safe(Step(t, e))
  {
  }

  /**
   Attach safety: in every reachable state at most one of a live socket, a pending reconnect and a
   halt is present; exactly one is, while a session is selected on a visible page.
   */
  lemma {:induction false} AttachSafety(t: Terminal, es: seq<Event>)
    requires Safe(t)
    ensures Safe(Run(t, es))
    decreases |es|
  {
    if es != [] {
      SafetyKept(t, es[0]);
      AttachSafety(Step(t, es[0]), es[1..]);
    }
  }

  /** The page becomes visible between a socket's closing handshake and its close event. */
  predicate ClosingWindow(t: Terminal, e: Event) {
    && e == VisibilityChanged(true)
    && t.ws.Some?
    && t.ws.value.ready.Closing?
    && t.life.final.Some?
  }

  /**
   The events a new attach may start from: user action, recovery, or a refusal, either of a token
   that is no longer the current one, or with a saved token to fall back to.
   */
  predicate StartsAttach(t: Terminal, e: Event) {
    match e
    case Click(id) => t.selected != Some(id) || t.halt.HaltedGone?
    case RestartSelected => t.selected.Some?
    case ToggleShell => t.selected.Some?
    case ConnectAccepted => t.halt != NotHalted
    case HttpRefused(sent, fallback) => sent == t.token && fallback.Some? && t.halt != NotHalted
    case StatusPolled(status, now) => t.halt.HaltedGone? && Polled(t.recovery, status, now).1
    case SocketClosed(_, fallback) =>
      t.ws.Some? && t.life.final == Some(AuthRejected)
      && (t.ws.value.sentToken != t.token || fallback.Some?)
    case _ => false
  }

  /**
   What one event can open, in every safe state. A new lifecycle starts exactly on
   `StartsAttach`. The current lifecycle opens another socket only without one of its own alive or
   in place of a closing one, and does so after a final frame exactly in the closing window.
   */
  lemma OpeningsAreJustified(t: Terminal, e: Event)
    requires Safe(t)
    ensures var n := Step(t, e);
            && t.sockets <= n.sockets <= t.sockets + 1
            && t.lifeNo <= n.lifeNo <= t.lifeNo + 1
            && (n.lifeNo != t.lifeNo <==> StartsAttach(t, e))
            && (n.lifeNo != t.lifeNo ==>
                  n.sockets == t.sockets + 1 && n.life == FRESH_LIFECYCLE && n.ws.Some? && n.halt.NotHalted?)
            && (n.lifeNo == t.lifeNo && n.sockets != t.sockets ==>
                  e.TimerFired? || (e.VisibilityChanged? && (t.ws.None? || t.ws.value.ready.Closing?)))
            && (n.lifeNo == t.lifeNo && n.sockets != t.sockets && t.life.final.Some? <==> ClosingWindow(t, e))
  {
  }

  /** Once final, a lifecycle opens no socket over any run that avoids the closing window. */
  lemma {:induction false} NoSocketAfterFinal(t: Terminal, es: seq<Event>)
    requires Safe(t) && t.life.final.Some?
    requires forall i | 0 <= i < |es| :: !ClosingWindow(Run(t, es[..i]), es[i])
    ensures Run(t, es).lifeNo == t.lifeNo ==> Run(t, es).sockets == t.sockets && Run(t, es).life.final.Some?
    ensures Run(t, es).lifeNo >= t.lifeNo
    decreases |es|
  {
    if es != [] {
      var n := Step(t, es[0]);
      SafetyKept(t, es[0]);
      OpeningsAreJustified(t, es[0]);
      assert Run(t, es[..0]) == t;
      if n.lifeNo == t.lifeNo {
        forall i | 0 <= i < |es[1..]| ensures !ClosingWindow(Run(n, es[1..][..i]), es[1..][i]) {
          assert es[..i + 1][1..] == es[1..][..i] && es[..i + 1][0] == es[0];
          assert Run(t, es[..i + 1]) == Run(n, es[1..][..i]);
        }
        NoSocketAfterFinal(n, es[1..]);
      } else {
        LifeNumbersGrow(n, es[1..]);
      }
    }
  }

  lemma {:induction false} LifeNumbersGrow(t: Terminal, es: seq<Event>)
    requires Safe(t)
    ensures Run(t, es).lifeNo >= t.lifeNo
    decreases |es|
  {
    if es != [] {
      SafetyKept(t, es[0]);
      OpeningsAreJustified(t, es[0]);
      LifeNumbersGrow(Step(t, es[0]), es[1..]);
    }
  }

  /** The window is reachable: the refused attach is opened again before its close is heard. */
  lemma ClosingWindowIsReachable(t: Terminal)
    requires Initial(t) && t.visible
    ensures exists es, e ::
              var n := Run(t, es);
              && ClosingWindow(n, e)
              && Step(n, e).lifeNo == n.lifeNo
              && Step(n, e).sockets == n.sockets + 1
              && n.life.final == Some(AuthRejected)
  {
    var es := [Event.Click("s"), SocketOpened, FrameArrived(Error(WS_ERR_AUTH), 0), SocketClosingStarted];
    var t1 := Step(t, es[0]);
    var t2 := Step(t1, es[1]);
    var t3 := Step(t2, es[2]);
    var t4 := Step(t3, es[3]);
    assert Run(t, es) == Run(t1, es[1..]) == Run(t2, es[1..][1..]) == Run(t3, es[1..][1..][1..]) == t4;
    assert ClosingWindow(t4, VisibilityChanged(true));
  }

  // ---- a restart without a token --------------------------------------------------------------

  /**
   A refused socket's close starts another attach with no token at all exactly when the page has
   forgotten the token the socket sent, the close coming after a refusal over HTTP.
   */
  lemma TokenlessRestartIff(t: Terminal, now: int, fallback: Option<string>)
    requires Safe(t)
    ensures var n := Step(t, Event.SocketClosed(now, fallback));
            (n.lifeNo != t.lifeNo && n.token.None?) <==>
            (t.ws.Some? && t.life.final == Some(AuthRejected) && t.ws.value.sentToken.Some? && t.token.None?)
  {
  }

  /** A socket that sent a token is alive only while the page has one. */
  predicate Held(t: Terminal) {
    t.ws.Some? && t.ws.value.sentToken.Some? ==> t.token.Some?
  }

  /** The current token is refused over HTTP and nothing takes its place. */
  predicate Forgets(t: Terminal, e: Event) {
    e.HttpRefused? && e.fallback.None? && e.sent == t.token
  }

  predicate NeverForgets(t: Terminal, es: seq<Event>)
    decreases |es|
  {
    es == [] || (!Forgets(t, es[0]) && NeverForgets(Step(t, es[0]), es[1..]))
  }

  /** Only such a refusal leads there: over any other run, no close restarts without a token. */
  lemma {:induction false} NoTokenlessRestart(t: Terminal, es: seq<Event>, now: int, fallback: Option<string>)
    requires Safe(t) && Held(t) && NeverForgets(t, es)
    ensures var r := Run(t, es);
            var n := Step(r, Event.SocketClosed(now, fallback));
            Held(r) && (n.lifeNo != r.lifeNo && r.ws.value.sentToken.Some? ==> n.token.Some?)
    decreases |es|
  {
    if es == [] {
      TokenlessRestartIff(t, now, fallback);
    } else {
      SafetyKept(t, es[0]);
      NoTokenlessRestart(Step(t, es[0]), es[1..], now, fallback);
    }
  }

  /** And such a refusal between a socket's own refusal and its close does lead there. */
  lemma TokenlessRestartIsReachable(t: Terminal)
    requires Initial(t) && t.visible
    ensures exists es ::
              var r := Run(t, es);
              var n := Step(r, Event.SocketClosed(0, None));
              && r.ws.Some? && r.ws.value.sentToken == Some("k")
              && n.lifeNo == r.lifeNo + 1 && n.sockets == r.sockets + 1 && n.token == None
  {
    var es := [ConnectSubmitted("k"), Event.Click("s"), SocketOpened, FrameArrived(Error(WS_ERR_AUTH), 0),
               HttpRefused(Some("k"), None)];
    var t1 := Step(t, es[0]);
    var t2 := Step(t1, es[1]);
    var t3 := Step(t2, es[2]);
    var t4 := Step(t3, es[3]);
    var t5 := Step(t4, es[4]);
    assert Run(t, es) == Run(t1, es[1..]) == Run(t2, es[1..][1..]) == Run(t3, es[1..][1..][1..])
        == Run(t4, es[1..][1..][1..][1..]) == t5;
    assert t5.ws.Some? && t5.life.final == Some(AuthRejected) && t5.token == None;
  }

  // ---- an attach that ended "gone" comes back ---------------------------------------------------

  /** The session's pane is seen not to be running. */
  predicate SeesDown(e: Event) {
    e.StatusPolled? && e.status.Some? && e.status.value != "running"
  }

  predicate SeesRunning(e: Event) {
    e.StatusPolled? && e.status == Some("running")
  }

  /** The user acts on the attach, or a fallback token does so for them. */
  predicate UserActs(e: Event) {
    e.Click? || e.DeleteSelected? || e.RestartSelected? || e.ToggleShell? || e.ConnectAccepted?
    || (e.HttpRefused? && e.fallback.Some?)
  }

  function ProbeMs(failed: nat): int {
    Min(3000 * Pow2(failed), 60_000)
  }

  /** This poll brings the attach back: gone since `goneAt`, after so many failed probes. */
  predicate Due(goneAt: int, failed: nat, down: bool, e: Event) {
    SeesRunning(e) && (down || e.now - goneAt >= ProbeMs(failed))
  }

  predicate SeenDown(es: seq<Event>) {
    exists i | 0 <= i < |es| :: SeesDown(es[i])
  }

  /** The user does nothing, and no poll is due. */
  predicate StaysGone(goneAt: int, failed: nat, down: bool, es: seq<Event>)
    decreases |es|
  {
    es == [] ||
    (!UserActs(es[0]) && !Due(goneAt, failed, down, es[0])
     && StaysGone(goneAt, failed, down || SeesDown(es[0]), es[1..]))
  }

  /** Halted since `goneAt`, with a recovery that knows what was seen since. */
  predicate GoneSince(t: Terminal, goneAt: int, failed: nat, down: bool) {
    && Safe(t) && t.halt.HaltedGone? && t.selected.Some?
    && t.recovery == Recovery(Some(goneAt), down, failed)
  }

  lemma GoneNext(t: Terminal, goneAt: int, failed: nat, down: bool, e: Event)
    requires GoneSince(t, goneAt, failed, down) && !UserActs(e)
    ensures if Due(goneAt, failed, down, e) then Step(t, e).lifeNo == t.lifeNo + 1
            else Step(t, e).lifeNo == t.lifeNo && GoneSince(Step(t, e), goneAt, failed, down || SeesDown(e))
  {
    SafetyKept(t, e);
  }

  lemma {:induction false} StillGone(t: Terminal, goneAt: int, failed: nat, down: bool, es: seq<Event>)
    requires GoneSince(t, goneAt, failed, down) && StaysGone(goneAt, failed, down, es)
    ensures Run(t, es).lifeNo == t.lifeNo && GoneSince(Run(t, es), goneAt, failed, down || SeenDown(es))
    decreases |es|
  {
    hide GoneSince, Due, SeesDown, Step, UserActs;
    if es != [] {
      GoneNext(t, goneAt, failed, down, es[0]);
      StillGone(Step(t, es[0]), goneAt, failed, down || SeesDown(es[0]), es[1..]);
      assert SeenDown(es) <==> SeesDown(es[0]) || SeenDown(es[1..]) by {
        assert forall i | 0 < i < |es| :: es[i] == es[1..][i - 1];
        if SeenDown(es[1..]) {
          var i :| 0 <= i < |es[1..]| && SeesDown(es[1..][i]);
          assert SeesDown(es[i + 1]);
        }
      }
    }
  }

  /** The live attach is told that its session is gone, and closes. */
  predicate EndsGone(t: Terminal) {
    t.ws.Some? && Some(t.ws.value.session) == t.selected && t.life.final.Some? && t.life.final.value.Gone?
  }

  /**
   From the moment an attach ends gone until the user acts, a poll starts a new lifecycle exactly if
   it sees the session running, and either an earlier poll saw it down or enough time has passed:
   3 seconds, doubled for each failed probe, up to a minute.
   */
  lemma {:induction false} GoneComesBack(t: Terminal, goneAt: int, fallback: Option<string>, es: seq<Event>, e: Event)
    requires Safe(t) && EndsGone(t) && !UserActs(e)
    requires StaysGone(goneAt, t.recovery.probes, false, es)
    ensures var gone := Run(Step(t, Event.SocketClosed(goneAt, fallback)), es);
            && gone.lifeNo == t.lifeNo && gone.halt == HaltedGone
            && Step(gone, e).lifeNo ==
               (if Due(goneAt, t.recovery.probes, SeenDown(es), e) then t.lifeNo + 1 else t.lifeNo)
  {
    hide Due, StaysGone, SeenDown;
    var ended := Step(t, Event.SocketClosed(goneAt, fallback));
    SafetyKept(t, Event.SocketClosed(goneAt, fallback));
    StillGone(ended, goneAt, t.recovery.probes, false, es);
    GoneNext(Run(ended, es), goneAt, t.recovery.probes, SeenDown(es), e);
  }

  /**
   The failed probes, told from the events and the life numbers: re-attaches by polls that had not
   seen the session down since it was gone, counted from the last attach that became ready, or that
   the user started.
   */
  function FailedProbes(t: Terminal, es: seq<Event>, failed: nat, down: bool): nat
    decreases |es|
  {
    if es == [] then failed
    else
      var n := Step(t, es[0]);
      FailedProbes(n, es[1..], FailedAfter(t, es[0], n, failed, down), DownAfter(t, es[0], n, down))
  }

  predicate Readies(t: Terminal, e: Event) {
    e.FrameArrived? && e.msg.Ready? && t.ws.Some? && t.ws.value.ready.Open?
  }

  function FailedAfter(t: Terminal, e: Event, n: Terminal, failed: nat, down: bool): nat {
    if e.StatusPolled? then (if n.lifeNo != t.lifeNo && !down then failed + 1 else failed)
    else if n.lifeNo != t.lifeNo || Readies(t, e) then 0
    else failed
  }

  /** Seen down since the attach was last gone. */
  predicate DownAfter(t: Terminal, e: Event, n: Terminal, down: bool) {
    if e.StatusPolled? then down || SeesDown(e)
    else down && !(n.halt.HaltedGone? && !t.halt.HaltedGone?)
  }

  /** What recovery remembers while the attach is gone. */
  predicate Recalls(t: Terminal, failed: nat, down: bool) {
    t.recovery.probes == failed && (t.halt.HaltedGone? ==> t.recovery.goneAt.Some? && t.recovery.sawDown == down)
  }

  lemma RecallsNext(t: Terminal, e: Event, failed: nat, down: bool)
    requires Safe(t) && Recalls(t, failed, down)
    ensures var n := Step(t, e);
            Recalls(n, FailedAfter(t, e, n, failed, down), DownAfter(t, e, n, down))
  {
  }

  lemma {:induction false} ProbesAre(t: Terminal, es: seq<Event>, failed: nat, down: bool)
    requires Safe(t) && Recalls(t, failed, down)
    ensures Run(t, es).recovery.probes == FailedProbes(t, es, failed, down)
    decreases |es|
  {
    hide Step, Safe, FailedAfter, DownAfter;
    if es != [] {
      var n := Step(t, es[0]);
      SafetyKept(t, es[0]);
      RecallsNext(t, es[0], failed, down);
      ProbesAre(n, es[1..], FailedAfter(t, es[0], n, failed, down), DownAfter(t, es[0], n, down));
    }
  }

  /** Both together, over every run of a page from its start. */
  lemma {:induction false} GoneComesBackInEveryRun(t: Terminal, before: seq<Event>, goneAt: int, fallback: Option<string>,
                                                   es: seq<Event>, e: Event)
    requires Safe(t) && t.halt.NotHalted? && t.recovery == FRESH_RECOVERY
    requires EndsGone(Run(t, before)) && !UserActs(e)
    requires StaysGone(goneAt, FailedProbes(t, before, 0, false), false, es)
    ensures var ended := Run(t, before);
            var gone := Run(Step(ended, Event.SocketClosed(goneAt, fallback)), es);
            Step(gone, e).lifeNo ==
            (if Due(goneAt, FailedProbes(t, before, 0, false), SeenDown(es), e) then ended.lifeNo + 1 else ended.lifeNo)
  {
    hide Step, Due, StaysGone, SeenDown, UserActs, EndsGone;
    AttachSafety(t, before);
    ProbesAre(t, before, 0, false);
    GoneComesBack(Run(t, before), goneAt, fallback, es, e);
  }

  // ---- what is attached to, and with which token ------------------------------------------------

  function SelectedAfter(selected: Option<string>, es: seq<Event>): Option<string>
    decreases |es|
  {
    if es == [] then selected
    else SelectedAfter(match es[0] case Click(id) => Some(id) case DeleteSelected => None case _ => selected, es[1..])
  }

  /** Selecting another session shows its agent; a toggle shows the other pane of the selected one. */
  function KindAfter(selected: Option<string>, kind: PaneKind, es: seq<Event>): PaneKind
    decreases |es|
  {
    if es == [] then kind
    else
      match es[0]
      case Click(id) => KindAfter(Some(id), if selected == Some(id) then kind else AgentPane, es[1..])
      case DeleteSelected => KindAfter(None, kind, es[1..])
      case ToggleShell =>
        KindAfter(selected, if selected.None? then kind else if kind.AgentPane? then ShellPane else AgentPane, es[1..])
      case _ => KindAfter(selected, kind, es[1..])
  }

  /** After every run the page attaches, if at all, to the session and pane that the user chose last. */
  lemma {:induction false} AttachedToTheChosen(t: Terminal, es: seq<Event>)
    requires Safe(t)
    ensures var r := Run(t, es);
            && r.selected == SelectedAfter(t.selected, es) && r.kind == KindAfter(t.selected, t.kind, es)
            && (r.ws.Some? ==> Some(r.ws.value.session) == r.selected)
    decreases |es|
  {
    hide Step, Safe;
    if es == [] {
      SocketOfTheSelected(t);
    } else {
      SafetyKept(t, es[0]);
      ChosenNext(t, es[0]);
      AttachedToTheChosen(Step(t, es[0]), es[1..]);
    }
  }

  lemma SocketOfTheSelected(t: Terminal)
    requires Safe(t)
    ensures t.ws.Some? ==> Some(t.ws.value.session) == t.selected
  {
  }

  lemma ChosenNext(t: Terminal, e: Event)
    ensures Step(t, e).selected == (match e case Click(id) => Some(id) case DeleteSelected => None case _ => t.selected)
    ensures Step(t, e).kind ==
            (match e
             case Click(id) => if t.selected == Some(id) then t.kind else AgentPane
             case ToggleShell =>
               if t.selected.None? then t.kind else if t.kind.AgentPane? then ShellPane else AgentPane
             case _ => t.kind)
  {
  }

  /** A socket sends the token that is current when it opens, and no other later. */
  lemma SendsTheCurrentToken(t: Terminal, e: Event)
    ensures var n := Step(t, e);
            t.ws.Some? && n.ws.Some? && n.sockets == t.sockets ==>
              n.ws.value.sentToken ==
              if e.SocketOpened? && t.ws.value.ready.Connecting? then t.token else t.ws.value.sentToken
  {
  }

  // ---- what the current attach has been through -----------------------------------------------

  /** The frames and closes of the current attach: those that come while it has a socket, the frames while it is open. */
  function HeardNext(t: Terminal, e: Event, heard: seq<LifeEvent>): seq<LifeEvent> {
    if Step(t, e).lifeNo != t.lifeNo then []
    else
      match e
      case FrameArrived(msg, now) =>
        if t.ws.Some? && t.ws.value.ready.Open? then heard + [LifeEvent.Frame(msg, now)] else heard
      case SocketClosed(now, _) => if t.ws.Some? then heard + [LifeEvent.SocketClosed(now)] else heard
      case _ => heard
  }

  function HeardBy(t: Terminal, es: seq<Event>, heard: seq<LifeEvent>): seq<LifeEvent>
    decreases |es|
  {
    if es == [] then heard else HeardBy(Step(t, es[0]), es[1..], HeardNext(t, es[0], heard))
  }

  lemma {:induction false} AfterOneMore(heard: seq<LifeEvent>, e: LifeEvent)
    ensures AfterAll(heard + [e]) == After(AfterAll(heard), e)
  {
    assert (heard + [e])[..|heard|] == heard;
  }

  lemma {:induction false} LifeNext(t: Terminal, e: Event, heard: seq<LifeEvent>)
    requires Safe(t) && t.life == AfterAll(heard)
    ensures Step(t, e).life == AfterAll(HeardNext(t, e, heard))
  {
    OpeningsAreJustified(t, e);
    if Step(t, e).lifeNo == t.lifeNo {
      match e
      case FrameArrived(msg, now) => AfterOneMore(heard, LifeEvent.Frame(msg, now));
      case SocketClosed(now, _) =>
        AfterOneMore(heard, LifeEvent.SocketClosed(now));
        SocketOfTheSelected(t);
      case _ =>
    }
  }

  /**
   After every run the attach is where its own frames and closes have brought it, across all of its
   sockets and from nothing that another attach has heard; so each close is answered as they say.
   */
  lemma {:induction false} AttachHears(t: Terminal, es: seq<Event>, heard: seq<LifeEvent>)
    requires Safe(t) && t.life == AfterAll(heard)
    ensures Run(t, es).life == AfterAll(HeardBy(t, es, heard))
    decreases |es|
  {
    hide Step, Safe, AfterAll, HeardNext;
    if es != [] {
      SafetyKept(t, es[0]);
      LifeNext(t, es[0], heard);
      AttachHears(Step(t, es[0]), es[1..], HeardNext(t, es[0], heard));
    }
  }
}
