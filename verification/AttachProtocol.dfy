/**
 `ws.ts`: what a close of the browser's attach socket leads to (`AttachLifecycle`), and when an
 attach that ended "gone" is tried again (`GoneRecovery`). The clock is a parameter, in
 milliseconds; nothing assumes that it moves forward.
 */
module AttachProtocol {
  import opened Wrappers

  const WS_ERR_AUTH := "authentication failed"
  const WS_ERR_NO_SESSION := "no such session"

  const RECONNECT_BASE_MS := 1000
  const RECONNECT_MAX_MS := 15_000
  const ATTACH_STABLE_MS := 5000
  const GONE_PROBE_BASE_MS := 3000
  const GONE_PROBE_MAX_MS := 60_000

  function Pow2(n: nat): (p: nat)
    ensures p >= 1
  {
    if n == 0 then 1 else 2 * Pow2(n - 1)
  }

  lemma {:induction false} Pow2AtLeast(n: nat, m: nat)
    requires m <= n
    ensures Pow2(m) <= Pow2(n)
  {
    if m < n {
      Pow2AtLeast(n - 1, m);
    }
  }

  // ---- one attach, across its sockets -------------------------------------------------------

  datatype ServerControl =
    | Ready
    | Detached(reason: string)
    | Error(message: string)
    | OtherControl

  datatype ErrorKind = AuthError | NoSessionError | OtherError

  /** The no-session message may carry a `: detail` suffix; nothing is matched by substring. */
  function ClassifyError(message: string): ErrorKind {
    if message == WS_ERR_AUTH then AuthError
    else if message == WS_ERR_NO_SESSION || WS_ERR_NO_SESSION + ": " <= message then NoSessionError
    else OtherError
  }

  datatype CloseDecision =
    | Reconnect(delayMs: nat)
    | AuthRejected
    | Gone(message: string)

  datatype Lifecycle = Lifecycle(failures: nat, final: Option<CloseDecision>, readyAt: Option<int>)

  const FRESH_LIFECYCLE := Lifecycle(0, None, None)

  /** What a control frame settles about the end of the attach, if anything. */
  function Settles(msg: ServerControl): Option<CloseDecision> {
    match msg
    case Detached(reason) => if reason == "session_ended" then Some(Gone("session ended")) else None
    case Error(message) =>
      (match ClassifyError(message)
       case AuthError => Some(AuthRejected)
       case NoSessionError => Some(Gone(message))
       case OtherError => None)
    case _ => None
  }

  function Heard(l: Lifecycle, msg: ServerControl, now: int): Lifecycle {
    if msg.Ready? then l.(readyAt := Some(now))
    else if Settles(msg).Some? then l.(final := Settles(msg))
    else l
  }

  function ReconnectDelay(failures: nat): nat {
    Min(RECONNECT_BASE_MS * Pow2(failures), RECONNECT_MAX_MS)
  }

  /** The socket closed after an attach that had been up long enough to count as a success. */
  predicate WasStable(l: Lifecycle, now: int) {
    l.readyAt.Some? && now - l.readyAt.value >= ATTACH_STABLE_MS
  }

  function Closed(l: Lifecycle, now: int): (Lifecycle, CloseDecision) {
    if l.final.Some? then (l, l.final.value)
    else
      var failures := if WasStable(l, now) then 0 else l.failures;
      (Lifecycle(failures + 1, None, None), Reconnect(ReconnectDelay(failures)))
  }

  class AttachLifecycle {
    var failures: nat
    var final: Option<CloseDecision>
    var readyAt: Option<int>

    function View(): Lifecycle
      reads this
    {
      Lifecycle(failures, final, readyAt)
    }

    constructor ()
      ensures View() == FRESH_LIFECYCLE
    {
      failures, final, readyAt := 0, None, None;
    }

    method OnControl(msg: ServerControl, now: int)
      modifies this
      ensures View() == Heard(old(View()), msg, now)
    {
      match msg
      case Ready => readyAt := Some(now);
      case Detached(reason) =>
        if reason == "session_ended" {
          final := Some(Gone("session ended"));
        }
      case Error(message) =>
        var kind := ClassifyError(message);
        if kind == AuthError {
          final := Some(AuthRejected);
        } else if kind == NoSessionError {
          final := Some(Gone(message));
        }
      case OtherControl =>
    }

    method OnClose(now: int) returns (decision: CloseDecision)
      modifies this
      ensures (View(), decision) == Closed(old(View()), now)
    {
      if final.Some? {
        return final.value;
      }
      if readyAt.Some? && now - readyAt.value >= ATTACH_STABLE_MS {
        failures := 0;
      }
      readyAt := None;
      decision := Reconnect(ReconnectDelay(failures));
      failures := failures + 1;
    }
  }

  // ---- reconnect pacing ---------------------------------------------------------------------

  datatype LifeEvent = Frame(msg: ServerControl, now: int) | SocketClosed(now: int)

  function After(l: Lifecycle, e: LifeEvent): Lifecycle {
    match e
    case Frame(msg, now) => Heard(l, msg, now)
    case SocketClosed(now) => Closed(l, now).0
  }

  /** What the closes of a run of events were answered with, in order. */
  function Decisions(l: Lifecycle, es: seq<LifeEvent>): seq<CloseDecision>
    decreases |es|
  {
    if es == [] then []
    else
      (if es[0].SocketClosed? then [Closed(l, es[0].now).1] else [])
      + Decisions(After(l, es[0]), es[1..])
  }

  /** No frame settles the attach, and no close follows a stable one. */
  predicate NeverStable(l: Lifecycle, es: seq<LifeEvent>)
    decreases |es|
  {
    es == [] ||
    (&& (if es[0].SocketClosed? then !WasStable(l, es[0].now) else Settles(es[0].msg).None?)
     && NeverStable(After(l, es[0]), es[1..]))
  }

  function TotalDelay(ds: seq<CloseDecision>): nat {
    if ds == [] then 0
    else (if ds[0].Reconnect? then ds[0].delayMs else 0) + TotalDelay(ds[1..])
  }

  /** The k-th decision reconnects after the delay of the (from + k)-th failure. */
  predicate Paced(ds: seq<CloseDecision>, from: nat) {
    forall k | 0 <= k < |ds| :: ds[k] == Reconnect(ReconnectDelay(from + k))
  }

  lemma {:induction false} PacedFrom(l: Lifecycle, es: seq<LifeEvent>)
    requires l.final.None? && NeverStable(l, es)
    ensures Paced(Decisions(l, es), l.failures)
    decreases |es|
  {
    if es != [] {
      var next := After(l, es[0]);
      PacedFrom(next, es[1..]);
      var ds, rest := Decisions(l, es), Decisions(next, es[1..]);
      if es[0].SocketClosed? {
        assert ds == [Reconnect(ReconnectDelay(l.failures))] + rest;
        forall k | 0 < k < |ds| ensures ds[k] == Reconnect(ReconnectDelay(l.failures + k)) {
          assert ds[k] == rest[k - 1];
        }
      } else {
        assert ds == rest;
      }
    }
  }

  lemma PacedRest(ds: seq<CloseDecision>, from: nat, n: nat)
    requires Paced(ds, from) && n <= |ds|
    ensures Paced(ds[n..], from + n)
  {
  }

  lemma DelayIsCapped(n: nat)
    requires n >= 4
    ensures ReconnectDelay(n) == RECONNECT_MAX_MS
  {
    assert Pow2(4) == 2 * Pow2(3) == 16;
    Pow2AtLeast(n, 4);
  }

  lemma {:induction false} TotalOfPaced(ds: seq<CloseDecision>, from: nat)
    requires Paced(ds, from) && from >= 4
    ensures TotalDelay(ds) == RECONNECT_MAX_MS * |ds|
    decreases |ds|
  {
    if ds != [] {
      DelayIsCapped(from);
      PacedRest(ds, from, 1);
      TotalOfPaced(ds[1..], from + 1);
    }
  }

  lemma FirstDelays()
    ensures ReconnectDelay(0) == 1000 && ReconnectDelay(1) == 2000 && ReconnectDelay(2) == 4000
    ensures ReconnectDelay(3) == 8000
  {
  }

  /**
   Reconnect pacing: from a lifecycle with no failures, however the frames fall, consecutive
   closes that follow no stable attach are answered with 1 s, 2 s, 4 s, 8 s and then 15 s, so n of
   them wait 15 s * (n - 3) in all once n is at least 4.
   */
  lemma ReconnectPacing(l: Lifecycle, es: seq<LifeEvent>)
    requires l.final.None? && l.failures == 0 && NeverStable(l, es)
    ensures var ds := Decisions(l, es);
            && (forall k | 0 <= k < |ds| :: ds[k] == Reconnect(Min(1000 * Pow2(k), 15_000)))
            && (|ds| >= 4 ==> TotalDelay(ds) == 15_000 * (|ds| - 3))
  {
    PacedFrom(l, es);
    var ds := Decisions(l, es);
    if |ds| >= 4 {
      FirstDelays();
      PacedRest(ds, 0, 4);
      TotalOfPaced(ds[4..], 4);
      assert ds[1..][1..] == ds[2..] && ds[2..][1..] == ds[3..] && ds[3..][1..] == ds[4..];
      assert TotalDelay(ds) == 1000 + TotalDelay(ds[1..]);
      assert TotalDelay(ds[1..]) == 2000 + TotalDelay(ds[2..]);
      assert TotalDelay(ds[2..]) == 4000 + TotalDelay(ds[3..]);
    }
  }

  /** A close after a stable attach starts the schedule over: its own delay is the first one. */
  lemma StableAttachResets(l: Lifecycle, now: int, es: seq<LifeEvent>)
    requires l.final.None? && WasStable(l, now)
    requires NeverStable(Closed(l, now).0, es)
    ensures var ds := Decisions(l, [SocketClosed(now)] + es);
            forall k | 0 <= k < |ds| :: ds[k] == Reconnect(Min(1000 * Pow2(k), 15_000))
  {
    var all := [SocketClosed(now)] + es;
    assert all[1..] == es;
    PacedFrom(Closed(l, now).0, es);
    var ds := Decisions(l, all);
    assert ds == [Closed(l, now).1] + Decisions(Closed(l, now).0, es);
  }

  /** Once a frame has settled the attach, no later close is ever answered with a reconnect. */
  lemma {:induction false} SettledStaysSettled(l: Lifecycle, es: seq<LifeEvent>)
    requires l.final.Some? && !l.final.value.Reconnect?
    ensures forall d | d in Decisions(l, es) :: !d.Reconnect?
    decreases |es|
  {
    if es != [] {
      SettledStaysSettled(After(l, es[0]), es[1..]);
    }
  }

  // ---- every close, told from the frames and closes before it ---------------------------------

  function AfterAll(es: seq<LifeEvent>): Lifecycle {
    if es == [] then FRESH_LIFECYCLE else After(AfterAll(es[..|es| - 1]), es[|es| - 1])
  }

  /** The server refused the token. */
  predicate SaysRefused(e: LifeEvent) {
    e.Frame? && e.msg == Error(WS_ERR_AUTH)
  }

  /** That the session has ended, or that there is none, if the frame says so. */
  function SaysGone(e: LifeEvent): Option<string> {
    if !e.Frame? then None
    else if e.msg == Detached("session_ended") then Some("session ended")
    else if e.msg.Error? && (e.msg.message == WS_ERR_NO_SESSION || WS_ERR_NO_SESSION + ": " <= e.msg.message)
    then Some(e.msg.message)
    else None
  }

  /** Of the frames that say either, the last one says that the token was refused. */
  predicate LastSaysRefused(es: seq<LifeEvent>) {
    es != [] && var last := es[|es| - 1];
    SaysRefused(last) || (LastSaysRefused(es[..|es| - 1]) && SaysGone(last).None?)
  }

  /** Or that the session is gone, for this reason. */
  predicate LastSaysGone(es: seq<LifeEvent>, why: string) {
    es != [] && var last := es[|es| - 1];
    SaysGone(last) == Some(why) || (LastSaysGone(es[..|es| - 1], why) && SaysGone(last).None? && !SaysRefused(last))
  }

  /** When the attach became ready, if it did since the last close. */
  function ReadySince(es: seq<LifeEvent>): Option<int> {
    if es == [] then None
    else
      match es[|es| - 1]
      case SocketClosed(_) => None
      case Frame(msg, now) => if msg.Ready? then Some(now) else ReadySince(es[..|es| - 1])
  }

  /** A close now would come at least five seconds after the attach became ready. */
  predicate Stable(es: seq<LifeEvent>, now: int) {
    ReadySince(es).Some? && now - ReadySince(es).value >= 5000
  }

  /** The closes in a row up to now, counted from the last stable one. */
  function ClosesInARow(es: seq<LifeEvent>): nat {
    if es == [] then 0
    else
      var earlier := es[..|es| - 1];
      match es[|es| - 1]
      case SocketClosed(now) => (if Stable(earlier, now) then 0 else ClosesInARow(earlier)) + 1
      case Frame(_, _) => ClosesInARow(earlier)
  }

  /** What the lifecycle holds after any run: the verdict given last, or else the pacing so far. */
  lemma {:induction false} LifecycleIs(es: seq<LifeEvent>)
    ensures var l := AfterAll(es);
            && (l.final.None? || l.final.value.AuthRejected? || l.final.value.Gone?)
            && (l.final == Some(AuthRejected) <==> LastSaysRefused(es))
            && (forall why :: l.final == Some(Gone(why)) <==> LastSaysGone(es, why))
            && (l.final.None? ==> l.readyAt == ReadySince(es) && l.failures == ClosesInARow(es))
  {
    if es != [] {
      LifecycleIs(es[..|es| - 1]);
      assert WS_ERR_AUTH[0] != WS_ERR_NO_SESSION[0];
    }
  }

  /**
   How every close is answered, from the frames and closes before it: by the verdict given last, and
   without one by a reconnect whose delay doubles with each close in a row, up to 15 seconds.
   */
  lemma {:induction false} CloseIsAnswered(es: seq<LifeEvent>, now: int)
    ensures var d := Closed(AfterAll(es), now).1;
            && (d.AuthRejected? <==> LastSaysRefused(es))
            && (forall why :: d == Gone(why) <==> LastSaysGone(es, why))
            && (d.Reconnect? ==>
                  d.delayMs == Min(1000 * Pow2(if Stable(es, now) then 0 else ClosesInARow(es)), 15_000))
  {
    LifecycleIs(es);
  }

  // ---- recovery of an attach that ended "gone" ----------------------------------------------

  datatype Recovery = Recovery(goneAt: Option<int>, sawDown: bool, probes: nat)

  const FRESH_RECOVERY := Recovery(None, false, 0)

  function ProbeWait(probes: nat): nat {
    Min(GONE_PROBE_BASE_MS * Pow2(probes), GONE_PROBE_MAX_MS)
  }

  function WentGone(r: Recovery, now: int): Recovery {
    r.(goneAt := Some(now), sawDown := false)
  }

  function BecameReady(r: Recovery): Recovery {
    FRESH_RECOVERY
  }

  /** A poll saw the selected session; `None` is a session missing from the snapshot. */
  function Polled(r: Recovery, status: Option<string>, now: int): (Recovery, bool) {
    if r.goneAt.None? || status.None? then (r, false)
    else if status.value != "running" then (r.(sawDown := true), false)
    else if !r.sawDown && now - r.goneAt.value < ProbeWait(r.probes) then (r, false)
    else (r.(goneAt := None, probes := if r.sawDown then r.probes else r.probes + 1), true)
  }

  class GoneRecovery {
    var goneAt: Option<int>
    var sawDown: bool
    var probes: nat

    function View(): Recovery
      reads this
    {
      Recovery(goneAt, sawDown, probes)
    }

    constructor ()
      ensures View() == FRESH_RECOVERY
    {
      goneAt, sawDown, probes := None, false, 0;
    }

    method OnGone(now: int)
      modifies this
      ensures View() == WentGone(old(View()), now)
    {
      goneAt := Some(now);
      sawDown := false;
    }

    method OnReady()
      modifies this
      ensures View() == BecameReady(old(View()))
    {
      goneAt := None;
      sawDown := false;
      probes := 0;
    }

    method OnPoll(status: Option<string>, now: int) returns (reattach: bool)
      modifies this
      ensures (View(), reattach) == Polled(old(View()), status, now)
    {
      if goneAt.None? || status.None? {
        return false;
      }
      if status.value != "running" {
        sawDown := true;
        return false;
      }
      if !sawDown && now - goneAt.value < ProbeWait(probes) {
        return false;
      }
      if !sawDown {
        probes := probes + 1;
      }
      goneAt := None;
      return true;
    }
  }

  datatype RecoveryEvent = WasGone(now: int) | WasReady | Poll(status: Option<string>, now: int)

  function Recovered(r: Recovery, e: RecoveryEvent): Recovery {
    match e
    case WasGone(now) => WentGone(r, now)
    case WasReady => BecameReady(r)
    case Poll(status, now) => Polled(r, status, now).0
  }

  predicate Reattaches(r: Recovery, e: RecoveryEvent) {
    e.Poll? && Polled(r, e.status, e.now).1
  }

  function CountReattaches(r: Recovery, es: seq<RecoveryEvent>): nat
    decreases |es|
  {
    if es == [] then 0
    else (if Reattaches(r, es[0]) then 1 else 0) + CountReattaches(Recovered(r, es[0]), es[1..])
  }

  function CountGone(es: seq<RecoveryEvent>): nat {
    if es == [] then 0 else (if es[0].WasGone? then 1 else 0) + CountGone(es[1..])
  }

  function Armed(r: Recovery): nat {
    if r.goneAt.Some? then 1 else 0
  }

  function RecoveredAll(r: Recovery, es: seq<RecoveryEvent>): Recovery
    decreases |es|
  {
    if es == [] then r else RecoveredAll(Recovered(r, es[0]), es[1..])
  }

  /** Over every run, recovery re-attaches at most once per "gone". */
  lemma {:induction false} AtMostOncePerGone(r: Recovery, es: seq<RecoveryEvent>)
    ensures CountReattaches(r, es) + Armed(RecoveredAll(r, es)) <= CountGone(es) + Armed(r)
    decreases |es|
  {
    if es != [] {
      AtMostOncePerGone(Recovered(r, es[0]), es[1..]);
    }
  }

  /** A session missing from every snapshot is never re-attached, however long it is polled. */
  lemma {:induction false} NeverForAMissingSession(r: Recovery, es: seq<RecoveryEvent>)
    requires forall e | e in es :: e.Poll? ==> e.status.None?
    ensures CountReattaches(r, es) == 0
    decreases |es|
  {
    if es != [] {
      NeverForAMissingSession(Recovered(r, es[0]), es[1..]);
    }
  }

  /** In any run, every re-attach answers a poll that saw the session running, after a "gone". */
  lemma {:induction false} ReattachesOnlyRunning(r: Recovery, es: seq<RecoveryEvent>, i: nat)
    requires i < |es| && Reattaches(RecoveredAll(r, es[..i]), es[i])
    ensures es[i].Poll? && es[i].status == Some("running")
    ensures r.goneAt.Some? || exists j | 0 <= j < i :: es[j].WasGone?
  {
    if r.goneAt.None? && forall j | 0 <= j < i :: !es[j].WasGone? {
      NeverArmed(r, es[..i]);
    }
  }

  lemma {:induction false} NeverArmed(r: Recovery, es: seq<RecoveryEvent>)
    requires r.goneAt.None? && forall e | e in es :: !e.WasGone?
    ensures RecoveredAll(r, es).goneAt.None?
    decreases |es|
  {
    if es != [] {
      NeverArmed(Recovered(r, es[0]), es[1..]);
    }
  }

  /** How long each re-attach of a run came after the "gone" it answers. */
  function Waits(r: Recovery, es: seq<RecoveryEvent>): seq<int>
    decreases |es|
  {
    if es == [] then []
    else
      (if Reattaches(r, es[0]) then [es[0].now - r.goneAt.value] else [])
      + Waits(Recovered(r, es[0]), es[1..])
  }

  /** The k-th wait is at least min(3 s * 2^(from + k), 60 s). */
  predicate BackedOff(ws: seq<int>, from: nat) {
    forall k | 0 <= k < |ws| :: ws[k] >= Min(3000 * Pow2(from + k), 60_000)
  }

  /**
   While the session reads "running" throughout and no probe reaches `ready`, the k-th probe comes
   at least min(3 s * 2^k, 60 s) after its "gone".
   */
  lemma {:induction false} ProbesBackOff(r: Recovery, es: seq<RecoveryEvent>)
    requires !r.sawDown
    requires forall e | e in es :: e.WasGone? || (e.Poll? && e.status == Some("running"))
    ensures BackedOff(Waits(r, es), r.probes)
    decreases |es|
  {
    if es != [] {
      var next := Recovered(r, es[0]);
      ProbesBackOff(next, es[1..]);
      var ws, rest := Waits(r, es), Waits(next, es[1..]);
      if Reattaches(r, es[0]) {
        assert ws == [es[0].now - r.goneAt.value] + rest;
        forall k | 0 < k < |ws| ensures ws[k] >= Min(3000 * Pow2(r.probes + k), 60_000) {
          assert ws[k] == rest[k - 1];
        }
      } else {
        assert ws == rest;
      }
    }
  }
}
