/**
 `attach.rs`: the handshake wait, the pump that bridges a WebSocket and the caller's byte streams,
 and the terminator that waits for the pump's end. What `select!` hands the pump is a sequence of
 events; whether a send or a write went through is part of the event.
 */
module AttachPump {
  import opened Wrappers

  const READ_CHUNK := 8 * 1024
  const WS_ERR_AUTH := "authentication failed"
  const WS_ERR_NO_SESSION := "no such session"

  datatype DetachReason = ClientRequest | SessionGone | Transport

  datatype ServerControl = Ready | Detached(reason: DetachReason) | Error(message: string)

  /** A message read from the socket; a text that does not parse as a control is `Text(None)`. */
  datatype Message =
    | Binary(payload: seq<byte>, accepted: nat)
    | Text(control: Option<ServerControl>)
    | Ping(payload: seq<byte>, answered: bool)
    | Close
    | EndOfStream
    | ReadError
    | Other

  // ---- waiting for `ready` ------------------------------------------------------------------

  datatype Handshake =
    | Attached
    | RefusedAuth
    | RefusedNotFound
    | RefusedServer(message: string)
    | Unavailable(reason: string)

  /** The two sentinels are matched exactly, or as a prefix with detail; never by substring. */
  function HandshakeError(message: string): Handshake {
    if message == WS_ERR_AUTH then RefusedAuth
    else if message == WS_ERR_NO_SESSION || WS_ERR_NO_SESSION + ": " <= message then RefusedNotFound
    else RefusedServer(message)
  }

  /** What a message decides about the handshake; a close frame alone decides nothing. */
  function Decides(m: Message): Option<Handshake> {
    match m
    case Text(Some(Ready)) => Some(Attached)
    case Text(Some(Error(message))) => Some(HandshakeError(message))
    case Text(Some(Detached(_))) => Some(Unavailable("server detached before the attach was ready"))
    case ReadError => Some(Unavailable("server closed the connection during handshake"))
    case EndOfStream => Some(Unavailable("server closed the connection during handshake"))
    case _ => None
  }

  /** The server says that there is no such session, possibly with a detail. */
  ghost predicate SaysNoSession(message: string) {
    message == "no such session" || exists detail :: message == "no such session: " + detail
  }

  /** The handshake's answers, each from the messages that give it; all other messages give none. */
  lemma HandshakeIs(m: Message)
    ensures Decides(m) == Some(Attached) <==> m == Text(Some(Ready))
    ensures Decides(m) == Some(RefusedAuth) <==> m == Text(Some(Error("authentication failed")))
    ensures Decides(m) == Some(RefusedNotFound) <==>
            m.Text? && m.control.Some? && m.control.value.Error? && SaysNoSession(m.control.value.message)
    ensures forall why :: Decides(m) == Some(RefusedServer(why)) <==>
              m == Text(Some(Error(why))) && why != "authentication failed" && !SaysNoSession(why)
    ensures forall why :: Decides(m) == Some(Unavailable(why)) <==>
              || (why == "server closed the connection during handshake" && (m.ReadError? || m.EndOfStream?))
              || (why == "server detached before the attach was ready"
                  && m.Text? && m.control.Some? && m.control.value.Detached?)
  {
    if m.Text? && m.control.Some? && m.control.value.Error? {
      var why := m.control.value.message;
      NoSessionIs(why);
      assert "no such session"[0] != "authentication failed"[0];
    }
  }

  lemma NoSessionIs(why: string)
    ensures SaysNoSession(why) <==> why == WS_ERR_NO_SESSION || WS_ERR_NO_SESSION + ": " <= why
  {
    var start := WS_ERR_NO_SESSION + ": ";
    assert start == "no such session: ";
    if start <= why {
      assert why == "no such session: " + why[|start|..];
    }
  }

  function Pings(ms: seq<Message>): seq<seq<byte>> {
    if ms == [] then []
    else
      var last := ms[|ms| - 1];
      Pings(ms[..|ms| - 1]) + (if last.Ping? && last.answered then [last.payload] else [])
  }

  lemma PingsNext(ms: seq<Message>, i: nat)
    requires i < |ms|
    ensures Pings(ms[..i + 1]) == Pings(ms[..i]) + (if ms[i].Ping? && ms[i].answered then [ms[i].payload] else [])
  {
    assert ms[..i + 1][..i] == ms[..i];
  }

  lemma NoPings(ms: seq<Message>)
    ensures Pings(ms[..0]) == []
  {
  }

  /** The first deciding message decides; every ping before it was answered with its own payload. */
  method AwaitReady(messages: seq<Message>) returns (result: Option<Handshake>, pongs: seq<seq<byte>>, read: nat)
    ensures read <= |messages|
    ensures result.Some? ==> read > 0 && Decides(messages[read - 1]) == result
    ensures result.None? ==> read == |messages|
    ensures forall i | 0 <= i < (if result.Some? then read - 1 else read) :: Decides(messages[i]).None?
    ensures pongs == Pings(messages[..read])
  {
    hide Pings, HandshakeError;
    NoPings(messages);
    pongs, read := [], 0;
    while read < |messages|
      invariant read <= |messages|
      invariant forall i | 0 <= i < read :: Decides(messages[i]).None?
      invariant pongs == Pings(messages[..read])
    {
      var m := messages[read];
      read := read + 1;
      PingsNext(messages, read - 1);
      match m
      case Text(Some(Ready)) => return Some(Attached), pongs, read;
      case Text(Some(Error(message))) =>
        var refused := HandshakeError(message);
        return Some(refused), pongs, read;
      case Text(Some(Detached(_))) =>
        return Some(Unavailable("server detached before the attach was ready")), pongs, read;
      case Text(None) =>
      case Ping(payload, answered) =>
        if answered {
          pongs := pongs + [payload];
        }
      case ReadError =>
        return Some(Unavailable("server closed the connection during handshake")), pongs, read;
      case EndOfStream =>
        return Some(Unavailable("server closed the connection during handshake")), pongs, read;
      case Binary(_, _) =>
      case Close =>
      case Other =>
    }
    result := None;
  }

  // ---- the pump -----------------------------------------------------------------------------

  datatype AttachEnd = SessionEnded | DetachedEnd | ErrorEnd(reason: string)

  datatype Action = Resize(cols: nat, rows: nat) | Refresh | Detach | SendersDropped

  datatype Event =
    | FromServer(m: Message)
    | CallerWrote(available: nat, sent: bool)
    | CallerClosed
    | CallerFailed
    | Control(action: Action, sent: bool)

  datatype Frame =
    | BinaryFrame(bytes: seq<byte>)
    | PongFrame(payload: seq<byte>)
    | ResizeFrame(cols: nat, rows: nat)
    | RefreshFrame
    | DetachFrame

  const TRANSPORT_LOST := ErrorEnd("connection to server lost")

  function EndFor(reason: DetachReason): AttachEnd {
    match reason
    case ClientRequest => DetachedEnd
    case SessionGone => SessionEnded
    case Transport => TRANSPORT_LOST
  }

  /** Why an event ends the pump, and whether that end is the client's own doing. */
  function Ends(e: Event): Option<(AttachEnd, bool)> {
    match e
    case FromServer(Binary(payload, accepted)) =>
      if accepted < |payload| then Some((DetachedEnd, true)) else None
    case FromServer(Text(Some(Detached(reason)))) => Some((EndFor(reason), false))
    case FromServer(Text(Some(Error(message)))) => Some((ErrorEnd(message), false))
    case FromServer(Ping(_, answered)) => if answered then None else Some((TRANSPORT_LOST, false))
    case FromServer(Close) => Some((TRANSPORT_LOST, false))
    case FromServer(EndOfStream) => Some((TRANSPORT_LOST, false))
    case FromServer(ReadError) => Some((TRANSPORT_LOST, false))
    case FromServer(_) => None
    case CallerWrote(available, sent) => if available > 0 && !sent then Some((TRANSPORT_LOST, false)) else None
    case CallerClosed => Some((DetachedEnd, true))
    case CallerFailed => Some((DetachedEnd, true))
    case Control(Detach, _) => Some((DetachedEnd, true))
    case Control(SendersDropped, _) => Some((DetachedEnd, true))
    case Control(_, _) => None
  }

  predicate Says(e: Event, control: ServerControl) {
    e == FromServer(Text(Some(control)))
  }

  /** The caller closes its side, asks to detach, or does not take all that it is handed. */
  predicate CallerLeaves(e: Event) {
    || e.CallerClosed? || e.CallerFailed?
    || (e.Control? && (e.action.Detach? || e.action.SendersDropped?))
    || (e.FromServer? && e.m.Binary? && e.m.accepted < |e.m.payload|)
  }

  /** The socket ends or fails, or does not take what it is sent. */
  predicate SocketLost(e: Event) {
    || e == FromServer(Close) || e == FromServer(EndOfStream) || e == FromServer(ReadError)
    || (e.FromServer? && e.m.Ping? && !e.m.answered)
    || (e.CallerWrote? && e.available > 0 && !e.sent)
  }

  predicate EndedByServer(e: Event, end: AttachEnd) {
    match end
    case SessionEnded => Says(e, Detached(SessionGone))
    case DetachedEnd => Says(e, Detached(ClientRequest))
    case ErrorEnd(reason) =>
      Says(e, Error(reason)) || (reason == "connection to server lost" && (Says(e, Detached(Transport)) || SocketLost(e)))
  }

  /** What each published end tells the user has happened, and nothing else ends the attach. */
  lemma EndMeans(e: Event, end: AttachEnd)
    ensures Ends(e) == Some((end, true)) <==> end == DetachedEnd && CallerLeaves(e)
    ensures Ends(e) == Some((end, false)) <==> EndedByServer(e, end)
  {
  }

  /** One read takes what the caller has written, up to a chunk. */
  function Chunk(available: nat): nat {
    Min(available, READ_CHUNK)
  }

  function Handed(e: Event): seq<byte> {
    match e
    case FromServer(Binary(payload, accepted)) => payload[..Min(accepted, |payload|)]
    case _ => []
  }

  function FrameFor(e: Event, callerBytes: seq<byte>, taken: nat): Option<Frame>
    requires taken <= |callerBytes|
    requires e.CallerWrote? ==> taken + e.available <= |callerBytes|
  {
    match e
    case FromServer(Ping(payload, answered)) => if answered then Some(PongFrame(payload)) else None
    case CallerWrote(available, sent) =>
      if available > 0 && sent then Some(BinaryFrame(callerBytes[taken..taken + Chunk(available)])) else None
    case Control(Resize(cols, rows), sent) => if sent then Some(ResizeFrame(cols, rows)) else None
    case Control(Refresh, sent) => if sent then Some(RefreshFrame) else None
    case _ => None
  }

  /** The payloads of the binary messages, in order; the last one possibly cut short. */
  function Delivered(es: seq<Event>): seq<byte> {
    if es == [] then [] else Delivered(es[..|es| - 1]) + Handed(es[|es| - 1])
  }

  /** All that the server has sent for the caller. */
  function Payloads(es: seq<Event>): seq<byte> {
    if es == [] then []
    else
      var last := es[|es| - 1];
      Payloads(es[..|es| - 1]) + (if last.FromServer? && last.m.Binary? then last.m.payload else [])
  }

  /** While nothing ends the pump, the caller is handed all of it; the last message may be cut short. */
  lemma {:induction false} DeliveredIs(es: seq<Event>)
    requires forall i | 0 <= i < |es| - 1 :: Ends(es[i]).None?
    ensures Delivered(es) <= Payloads(es)
    ensures es == [] || !CallerLeaves(es[|es| - 1]) ==> Delivered(es) == Payloads(es)
  {
    if es != [] {
      var earlier := es[..|es| - 1];
      DeliveredIs(earlier);
      if earlier != [] {
        assert earlier[|earlier| - 1] == es[|es| - 2];
        EndMeans(es[|es| - 2], DetachedEnd);
      }
      assert Delivered(earlier) == Payloads(earlier);
    }
  }

  function SentBy(e: Event): nat {
    if e.CallerWrote? && e.sent then Chunk(e.available) else 0
  }

  /** How many of the caller's bytes the events sent. */
  function SentLength(es: seq<Event>): nat {
    if es == [] then 0 else SentLength(es[..|es| - 1]) + SentBy(es[|es| - 1])
  }

  function AnsweredBy(e: Event): seq<seq<byte>> {
    match e
    case FromServer(Ping(payload, answered)) => if answered then [payload] else []
    case _ => []
  }

  function Answered(es: seq<Event>): seq<seq<byte>> {
    if es == [] then [] else Answered(es[..|es| - 1]) + AnsweredBy(es[|es| - 1])
  }

  /** The resizes and refreshes that went through. */
  function AskedBy(e: Event): seq<Action> {
    if e.Control? && e.sent && (e.action.Resize? || e.action.Refresh?) then [e.action] else []
  }

  function Asked(es: seq<Event>): seq<Action> {
    if es == [] then [] else Asked(es[..|es| - 1]) + AskedBy(es[|es| - 1])
  }

  function CommandOf(f: Frame): seq<Action> {
    match f
    case ResizeFrame(cols, rows) => [Resize(cols, rows)]
    case RefreshFrame => [Refresh]
    case _ => []
  }

  function Commands(wire: seq<Frame>): seq<Action> {
    if wire == [] then [] else Commands(wire[..|wire| - 1]) + CommandOf(wire[|wire| - 1])
  }

  function BytesOf(f: Frame): seq<byte> {
    if f.BinaryFrame? then f.bytes else []
  }

  function PongOf(f: Frame): seq<seq<byte>> {
    if f.PongFrame? then [f.payload] else []
  }

  function SentBytes(wire: seq<Frame>): seq<byte> {
    if wire == [] then [] else SentBytes(wire[..|wire| - 1]) + BytesOf(wire[|wire| - 1])
  }

  function Pongs(wire: seq<Frame>): seq<seq<byte>> {
    if wire == [] then [] else Pongs(wire[..|wire| - 1]) + PongOf(wire[|wire| - 1])
  }

  lemma {:induction false} WireNext(wire: seq<Frame>, f: Frame)
    ensures SentBytes(wire + [f]) == SentBytes(wire) + BytesOf(f)
    ensures Pongs(wire + [f]) == Pongs(wire) + PongOf(f)
    ensures Commands(wire + [f]) == Commands(wire) + CommandOf(f)
  {
    assert (wire + [f])[..|wire|] == wire;
  }

  lemma {:induction false} EventNext(es: seq<Event>, n: nat)
    requires n < |es|
    ensures Delivered(es[..n + 1]) == Delivered(es[..n]) + Handed(es[n])
    ensures SentLength(es[..n + 1]) == SentLength(es[..n]) + SentBy(es[n])
    ensures Answered(es[..n + 1]) == Answered(es[..n]) + AnsweredBy(es[n])
    ensures Asked(es[..n + 1]) == Asked(es[..n]) + AskedBy(es[n])
  {
    assert es[..n + 1][..n] == es[..n];
  }

  predicate ChunksFit(wire: seq<Frame>) {
    forall i | 0 <= i < |wire| && wire[i].BinaryFrame? :: 1 <= |wire[i].bytes| <= READ_CHUNK
  }

  predicate NoDetach(wire: seq<Frame>) {
    forall i | 0 <= i < |wire| :: !wire[i].DetachFrame?
  }

  predicate Conserved(es: seq<Event>, callerBytes: seq<byte>, delivered: seq<byte>, wire: seq<Frame>, taken: nat) {
    && delivered == Delivered(es)
    && taken == SentLength(es) <= |callerBytes|
    && SentBytes(wire) == callerBytes[..taken]
    && Pongs(wire) == Answered(es)
    && Commands(wire) == Asked(es)
    && ChunksFit(wire)
    && NoDetach(wire)
  }

  function Put(wire: seq<Frame>, frame: Option<Frame>): seq<Frame> {
    if frame.Some? then wire + [frame.value] else wire
  }

  /** The frame an event sends carries exactly its share of the caller's bytes, its pong, its command. */
  lemma {:induction false} FrameCarries(wire: seq<Frame>, e: Event, callerBytes: seq<byte>, taken: nat)
    requires taken <= |callerBytes| && SentBytes(wire) == callerBytes[..taken]
    requires e.CallerWrote? ==> taken + e.available <= |callerBytes|
    ensures var next := Put(wire, FrameFor(e, callerBytes, taken));
            taken + SentBy(e) <= |callerBytes|
            && SentBytes(next) == callerBytes[..taken + SentBy(e)]
            && Pongs(next) == Pongs(wire) + AnsweredBy(e)
            && Commands(next) == Commands(wire) + AskedBy(e)
  {
    hide SentBytes, Pongs, Commands;
    var frame := FrameFor(e, callerBytes, taken);
    if frame.Some? {
      WireNext(wire, frame.value);
    }
  }

  lemma FramesNext(wire: seq<Frame>, e: Event, callerBytes: seq<byte>, taken: nat)
    requires taken <= |callerBytes| && ChunksFit(wire) && NoDetach(wire)
    requires e.CallerWrote? ==> taken + e.available <= |callerBytes|
    ensures var next := Put(wire, FrameFor(e, callerBytes, taken));
            ChunksFit(next) && NoDetach(next)
  {
    var frame := FrameFor(e, callerBytes, taken);
    if frame.Some? {
      Extended(wire, frame.value);
    }
  }

  lemma {:induction false} ConservedNext(es: seq<Event>, n: nat, callerBytes: seq<byte>, delivered: seq<byte>,
                                         wire: seq<Frame>, taken: nat)
    requires n < |es| && Conserved(es[..n], callerBytes, delivered, wire, taken)
    requires es[n].CallerWrote? ==> taken + es[n].available <= |callerBytes|
    ensures Conserved(es[..n + 1], callerBytes, delivered + Handed(es[n]),
                      Put(wire, FrameFor(es[n], callerBytes, taken)), taken + SentBy(es[n]))
  {
    hide Delivered, Answered, Asked, SentLength, SentBytes, Pongs, Commands, ChunksFit, NoDetach, FrameFor, Put;
    hide Handed, SentBy, AnsweredBy, AskedBy;
    EventNext(es, n);
    FrameCarries(wire, es[n], callerBytes, taken);
    FramesNext(wire, es[n], callerBytes, taken);
  }

  lemma Extended(wire: seq<Frame>, f: Frame)
    requires ChunksFit(wire) && NoDetach(wire)
    requires f.BinaryFrame? ==> 1 <= |f.bytes| <= READ_CHUNK
    ensures ChunksFit(wire + [f])
    ensures NoDetach(wire + [f]) <==> !f.DetachFrame?
  {
    if f.DetachFrame? {
      assert (wire + [f])[|wire|].DetachFrame?;
    }
  }

  /** The caller has written the bytes the events say it has. */
  predicate CallerProvides(es: seq<Event>, callerBytes: seq<byte>) {
    forall i | 0 <= i < |es| && es[i].CallerWrote? ::
      SentLength(es[..i]) + es[i].available <= |callerBytes|
  }

  /**
   `run_pump`, cut off after the events it is given. Conservation: the caller is handed the binary
   payloads in order and nothing else; the server is sent an in-order prefix of the caller's bytes,
   in chunks of 1 to `READ_CHUNK`, exactly as many as the sends that went through; every answered
   ping carries its own payload back, and the resizes and refreshes go out as asked. The first ending
   event ends it, its end is published once, and a detach frame is sent only for the client's own ends, as the last frame.
   */
  method RunPump(es: seq<Event>, callerBytes: seq<byte>, detachSent: bool)
    returns (delivered: seq<byte>, wire: seq<Frame>, used: nat, published: seq<AttachEnd>)
    requires CallerProvides(es, callerBytes)
    ensures used <= |es|
    ensures forall i | 0 <= i < used - |published| :: Ends(es[i]).None?
    ensures published == [] ==> used == |es|
    ensures published != [] ==> used > 0 && Ends(es[used - 1]).Some? && published == [Ends(es[used - 1]).value.0]
    ensures delivered == Delivered(es[..used]) <= Payloads(es[..used])
    ensures used == 0 || !CallerLeaves(es[used - 1]) ==> delivered == Payloads(es[..used])
    ensures SentLength(es[..used]) <= |callerBytes| && SentBytes(wire) == callerBytes[..SentLength(es[..used])]
    ensures Pongs(wire) == Answered(es[..used])
    ensures Commands(wire) == Asked(es[..used])
    ensures ChunksFit(wire)
    ensures if published != [] && Ends(es[used - 1]).value.1 && detachSent
            then wire != [] && wire[|wire| - 1].DetachFrame? && NoDetach(wire[..|wire| - 1])
            else NoDetach(wire)
  {
    hide Delivered, Payloads, Answered, Asked, SentLength, SentBytes, Pongs, Commands;
    hide Ends, CallerLeaves, ChunksFit, NoDetach;
    var taken, end;
    delivered, wire, used, taken, end := PumpUntilEnd(es, callerBytes);
    DeliveredIs(es[..used]);
    published := [];
    if end.Some? {
      if end.value.1 && detachSent {
        WireNext(wire, DetachFrame);
        Extended(wire, DetachFrame);
        assert (wire + [DetachFrame])[..|wire|] == wire;
        wire := wire + [DetachFrame];
      }
      published := [end.value.0];
    }
  }

  /** No event but possibly the last of these ends the pump. */
  predicate RunsOn(es: seq<Event>, n: nat, end: Option<(AttachEnd, bool)>)
    requires n <= |es|
  {
    && (forall i | 0 <= i < (if end.Some? then n - 1 else n) :: Ends(es[i]).None?)
    && (end.Some? ==> n > 0 && end == Ends(es[n - 1]))
  }

  lemma NothingYet(es: seq<Event>, callerBytes: seq<byte>)
    ensures Conserved(es[..0], callerBytes, [], [], 0)
  {
  }

  /** The caller's bytes reach as far as the next event reads. */
  lemma Room(es: seq<Event>, n: nat, callerBytes: seq<byte>, delivered: seq<byte>, wire: seq<Frame>, taken: nat)
    requires CallerProvides(es, callerBytes) && n < |es|
    requires Conserved(es[..n], callerBytes, delivered, wire, taken)
    ensures taken <= |callerBytes| && (es[n].CallerWrote? ==> taken + es[n].available <= |callerBytes|)
  {
  }

  /** The select loop. */
  method PumpUntilEnd(es: seq<Event>, callerBytes: seq<byte>)
    returns (delivered: seq<byte>, wire: seq<Frame>, used: nat, taken: nat, end: Option<(AttachEnd, bool)>)
    requires CallerProvides(es, callerBytes)
    ensures used <= |es| && (end.None? ==> used == |es|)
    ensures RunsOn(es, used, end)
    ensures Conserved(es[..used], callerBytes, delivered, wire, taken)
  {
    hide Conserved, Handed, FrameFor, SentBy, Ends;
    delivered, wire, used, taken, end := [], [], 0, 0, None;
    NothingYet(es, callerBytes);
    while used < |es| && end.None?
      invariant used <= |es| && RunsOn(es, used, end)
      invariant Conserved(es[..used], callerBytes, delivered, wire, taken)
    {
      var written, frame;
      Room(es, used, callerBytes, delivered, wire, taken);
      written, frame, end := HandleEvent(es[used], callerBytes, taken);
      ConservedNext(es, used, callerBytes, delivered, wire, taken);
      delivered := delivered + written;
      wire := Put(wire, frame);
      taken := taken + SentBy(es[used]);
      used := used + 1;
    }
  }

  /** One branch of the select: what the caller is handed, what the server is sent, and the end. */
  method HandleEvent(e: Event, callerBytes: seq<byte>, taken: nat)
    returns (written: seq<byte>, frame: Option<Frame>, end: Option<(AttachEnd, bool)>)
    requires taken <= |callerBytes|
    requires e.CallerWrote? ==> taken + e.available <= |callerBytes|
    ensures written == Handed(e)
    ensures frame == FrameFor(e, callerBytes, taken)
    ensures end == Ends(e)
  {
    written, frame, end := [], None, None;
    match e
    case FromServer(Binary(payload, accepted)) =>
      written := payload[..Min(accepted, |payload|)];
      if |written| < |payload| {
        end := Some((DetachedEnd, true));
      }
    case FromServer(Text(Some(Detached(reason)))) => end := Some((EndFor(reason), false));
    case FromServer(Text(Some(Error(message)))) => end := Some((ErrorEnd(message), false));
    case FromServer(Text(_)) =>
    case FromServer(Ping(payload, answered)) =>
      if answered {
        frame := Some(PongFrame(payload));
      } else {
        end := Some((TRANSPORT_LOST, false));
      }
    case FromServer(Close) => end := Some((TRANSPORT_LOST, false));
    case FromServer(EndOfStream) => end := Some((TRANSPORT_LOST, false));
    case FromServer(ReadError) => end := Some((TRANSPORT_LOST, false));
    case FromServer(Other) =>
    case CallerWrote(available, sent) =>
      var n := Chunk(available);
      if n > 0 {
        if sent {
          frame := Some(BinaryFrame(callerBytes[taken..taken + n]));
        } else {
          end := Some((TRANSPORT_LOST, false));
        }
      }
    case CallerClosed => end := Some((DetachedEnd, true));
    case CallerFailed => end := Some((DetachedEnd, true));
    case Control(Resize(cols, rows), sent) =>
      if sent {
        frame := Some(ResizeFrame(cols, rows));
      }
    case Control(Refresh, sent) =>
      if sent {
        frame := Some(RefreshFrame);
      }
    case Control(Detach, _) => end := Some((DetachedEnd, true));
    case Control(SendersDropped, _) => end := Some((DetachedEnd, true));
  }

  // ---- the terminator -----------------------------------------------------------------------

  /** What happens to the end channel: the pump publishes, or its sender goes away. */
  datatype ChannelMove = Published(end: AttachEnd) | SenderDropped

  const PUMP_VANISHED := ErrorEnd("attach pump ended unexpectedly")

  /** `wait`: polls the channel, then awaits its next change; `None` while nothing has happened. */
  method Wait(already: Option<AttachEnd>, moves: seq<ChannelMove>) returns (end: Option<AttachEnd>)
    ensures already.Some? ==> end == already
    ensures already.None? && moves == [] ==> end == None
    ensures already.None? && moves != [] ==>
              end == Some(match moves[0] case Published(e) => e case SenderDropped => PUMP_VANISHED)
  {
    var current := already;
    var i := 0;
    while true
      invariant 0 <= i <= |moves|
      invariant i == 0 ==> current == already
      invariant i > 0 ==> already.None? && moves[0].Published? && current == Some(moves[0].end)
      decreases |moves| - i
    {
      if current.Some? {
        return current;
      }
      if i == |moves| {
        return None;
      }
      match moves[i]
      case SenderDropped => return Some(PUMP_VANISHED);
      case Published(e) => current := Some(e);
      i := i + 1;
    }
  }

  /**
   The pump and its waiter together: `wait` reports the pump's end, whenever it is called. A pump
   aborted before it published one leaves the channel closed, and is reported as vanished.
   */
  method PumpThenWait(es: seq<Event>, callerBytes: seq<byte>, detachSent: bool, late: bool, aborted: bool)
    returns (end: Option<AttachEnd>)
    requires CallerProvides(es, callerBytes)
    ensures (forall i | 0 <= i < |es| :: Ends(es[i]).None?) ==> end == if aborted then Some(PUMP_VANISHED) else None
    ensures (exists i | 0 <= i < |es| :: Ends(es[i]).Some?) ==>
              exists i :: 0 <= i < |es| && Ends(es[i]).Some? && end == Some(Ends(es[i]).value.0)
                          && forall j | 0 <= j < i :: Ends(es[j]).None?
  {
    var delivered, wire, used, published := RunPump(es, callerBytes, detachSent);
    if published == [] {
      end := Wait(None, if aborted then [SenderDropped] else []);
    } else if late {
      end := Wait(Some(published[0]), [SenderDropped]);
    } else {
      end := Wait(None, [Published(published[0]), SenderDropped]);
    }
  }
}
