/**
 `poller.rs`: the poll loop behind a remote client's change feed and connection state. One round
 of the loop is described by what the server answers in it.
 */
module RemotePoller {
  import opened Wrappers
  import Backoff

  const U32_MAX: nat := 0xFFFF_FFFF
  const U64_MAX: nat := 0xFFFF_FFFF_FFFF_FFFF

  datatype Connection = Connecting | Connected | Degraded(reason: string)

  datatype WaitAnswer = Next(generation: nat) | NotFound | WaitFailed(reason: string)
  datatype PollAnswer = Hash(hash: nat) | PollFailed(reason: string)
  datatype Round = Round(wait: WaitAnswer, poll: PollAnswer)

  /** A sleep of the configured interval, or the backoff after so many failures in a row. */
  datatype Sleep = Interval | BackOff(failures: nat)

  datatype Config = Config(interval: nat, backoff: Backoff.Config)

  function SleepTime(c: Config, sleep: Sleep): nat {
    match sleep
    case Interval => c.interval
    case BackOff(failures) => Backoff.Delay(c.backoff, failures)
  }

  /** The loop's variables, its two watch channels, and what has been sent and slept so far. */
  datatype Loop = Loop(
    lastHash: Option<nat>,
    generation: Option<nat>,
    pushSupported: bool,
    failures: nat,
    feed: nat,
    connection: Connection,
    notices: seq<Connection>,
    sleeps: seq<Sleep>
  )

  const STARTED := Loop(None, None, true, 0, 0, Connecting, [], [])

  function WrappingAdd1(n: nat, max: nat): nat {
    if n == max then 0 else n + 1
  }

  /** Notifies on the way into degraded, and when the reason changes. */
  function MarkDegraded(l: Loop, reason: string): Loop {
    if l.connection == Degraded(reason) then l
    else l.(connection := Degraded(reason), notices := l.notices + [Degraded(reason)])
  }

  function Failed(l: Loop, failures: nat, reason: string): Loop {
    MarkDegraded(l.(generation := None, failures := failures, sleeps := l.sleeps + [BackOff(failures)]),
                 reason)
  }

  function Succeeded(l: Loop, before: Option<nat>, hash: nat): Loop {
    var recovered := !l.connection.Connected?;
    var moved := l.lastHash != Some(hash) || recovered || l.generation != before;
    l.(lastHash := Some(hash),
       failures := 0,
       connection := Connected,
       notices := if recovered then l.notices + [Connected] else l.notices,
       feed := if moved then WrappingAdd1(l.feed, U64_MAX) else l.feed,
       sleeps := if l.pushSupported then l.sleeps else l.sleeps + [Interval])
  }

  function Polled(l: Loop, before: Option<nat>, answer: PollAnswer): Loop {
    match answer
    case Hash(hash) => Succeeded(l, before, hash)
    case PollFailed(reason) => Failed(l, WrappingAdd1(l.failures, U32_MAX), reason)
  }

  function Step(l: Loop, r: Round): Loop {
    if l.pushSupported then
      match r.wait
      case Next(next) => Polled(l.(generation := Some(next)), l.generation, r.poll)
      case NotFound => Polled(l.(pushSupported := false), l.generation, r.poll)
      case WaitFailed(reason) => Failed(l, Min(l.failures + 1, U32_MAX), reason)
    else Polled(l, l.generation, r.poll)
  }

  function Run(rs: seq<Round>): Loop {
    if rs == [] then STARTED else Step(Run(rs[..|rs| - 1]), rs[|rs| - 1])
  }

  /** The loop itself, cut off after the rounds it is given. */
  method RunLoop(rounds: seq<Round>) returns (l: Loop)
    ensures l == Run(rounds)
  {
    var lastHash: Option<nat> := None;
    var generation: Option<nat> := None;
    var pushSupported := true;
    var failures: nat := 0;
    var feed: nat := 0;
    var connection := Connecting;
    var notices, sleeps := [], [];
    for i := 0 to |rounds|
      invariant Loop(lastHash, generation, pushSupported, failures, feed, connection, notices, sleeps)
             == Run(rounds[..i])
    {
      assert rounds[..i + 1][..i] == rounds[..i];
      var previous := generation;
      if pushSupported {
        match rounds[i].wait
        case Next(next) => generation := Some(next);
        case NotFound => pushSupported := false;
        case WaitFailed(reason) =>
          generation := None;
          failures := Min(failures + 1, U32_MAX);
          if connection != Degraded(reason) {
            connection := Degraded(reason);
            notices := notices + [connection];
          }
          sleeps := sleeps + [BackOff(failures)];
          continue;
      }
      match rounds[i].poll
      case Hash(hash) =>
        var contentChanged := lastHash != Some(hash);
        var recovered := !connection.Connected?;
        lastHash := Some(hash);
        failures := 0;
        if recovered {
          connection := Connected;
          notices := notices + [connection];
        }
        if contentChanged || recovered || generation != previous {
          feed := WrappingAdd1(feed, U64_MAX);
        }
        if !pushSupported {
          sleeps := sleeps + [Interval];
        }
      case PollFailed(reason) =>
        generation := None;
        failures := WrappingAdd1(failures, U32_MAX);
        if connection != Degraded(reason) {
          connection := Degraded(reason);
          notices := notices + [connection];
        }
        sleeps := sleeps + [BackOff(failures)];
    }
    l := Loop(lastHash, generation, pushSupported, failures, feed, connection, notices, sleeps);
    assert rounds[..|rounds|] == rounds;
  }

  // ---- what happened, told from the answers alone -------------------------------------------

  /** The server has not answered NotFound to any wait so far. */
  predicate Pushes(rs: seq<Round>) {
    rs == [] || (Pushes(rs[..|rs| - 1]) && !rs[|rs| - 1].wait.NotFound?)
  }

  /** The hash the last round polled, if it was a success. */
  function LastOutcome(rs: seq<Round>): Option<nat>
    requires rs != []
  {
    var last := rs[|rs| - 1];
    if Pushes(rs[..|rs| - 1]) && last.wait.WaitFailed? then None
    else match last.poll
      case Hash(hash) => Some(hash)
      case PollFailed(_) => None
  }

  predicate Healthy(rs: seq<Round>) {
    rs != [] && LastOutcome(rs).Some?
  }

  function FailuresSinceSuccess(rs: seq<Round>): nat {
    if rs == [] || Healthy(rs) then 0 else FailuresSinceSuccess(rs[..|rs| - 1]) + 1
  }

  function LatestHash(rs: seq<Round>): Option<nat> {
    if rs == [] then None else if Healthy(rs) then LastOutcome(rs) else LatestHash(rs[..|rs| - 1])
  }

  /** The latest generation the server gave, forgotten on a failure. */
  function LatestGeneration(rs: seq<Round>): Option<nat> {
    if !Healthy(rs) then None
    else if Pushes(rs) && rs[|rs| - 1].wait.Next? then Some(rs[|rs| - 1].wait.generation)
    else LatestGeneration(rs[..|rs| - 1])
  }

  /** The loop's variables are functions of the answers. */
  lemma {:induction false} LoopVariables(rs: seq<Round>)
    ensures var l := Run(rs);
            && l.pushSupported == Pushes(rs)
            && l.lastHash == LatestHash(rs)
            && l.generation == LatestGeneration(rs)
            && (l.connection.Connected? <==> Healthy(rs))
            && l.feed <= U64_MAX
            && l.failures <= U32_MAX
            && (FailuresSinceSuccess(rs) <= U32_MAX ==> l.failures == FailuresSinceSuccess(rs))
  {
    if rs != [] {
      LoopVariables(rs[..|rs| - 1]);
    }
  }

  /** Why the last round failed. */
  function LastReason(rs: seq<Round>): string
    requires rs != [] && !Healthy(rs)
  {
    var last := rs[|rs| - 1];
    if Pushes(rs[..|rs| - 1]) && last.wait.WaitFailed? then last.wait.reason else last.poll.reason
  }

  /** The state shown to the user is the last round's outcome, and each change of it is notified once. */
  lemma {:induction false} ConnectionIs(rs: seq<Round>)
    ensures Run(rs).connection ==
            (if rs == [] then Connecting else if Healthy(rs) then Connected else Degraded(LastReason(rs)))
    ensures rs != [] ==>
              var before, now := Run(rs[..|rs| - 1]), Run(rs);
              now.notices == before.notices + (if now.connection == before.connection then [] else [now.connection])
  {
    LoopVariables(rs);
    if rs != [] {
      LoopVariables(rs[..|rs| - 1]);
    }
  }

  /** The last round was a success that brought something new, or was the first after a failure. */
  predicate Changed(rs: seq<Round>) {
    && Healthy(rs)
    && var before := rs[..|rs| - 1];
       (LatestHash(before) != LastOutcome(rs) || LatestGeneration(before) != LatestGeneration(rs) || !Healthy(before))
  }

  /** How many rounds changed something, going by the answers alone. */
  function Changes(rs: seq<Round>): nat {
    if rs == [] then 0 else Changes(rs[..|rs| - 1]) + (if Changed(rs) then 1 else 0)
  }

  lemma {:induction false} FeedStep(rs: seq<Round>)
    requires rs != []
    ensures Run(rs).feed == (var before := Run(rs[..|rs| - 1]).feed;
                             if Changed(rs) then WrappingAdd1(before, U64_MAX) else before)
  {
    LoopVariables(rs[..|rs| - 1]);
    LoopVariables(rs);
  }

  /** The change feed was bumped by the last round. */
  predicate Bumped(rs: seq<Round>) {
    rs != [] && Run(rs).feed != Run(rs[..|rs| - 1]).feed
  }

  /**
   When the feed moves: exactly on a success whose hash moved, or whose server generation moved, or
   which is the first success or the first after a failure.
   */
  lemma {:induction false} BumpsExactly(rs: seq<Round>)
    requires rs != []
    ensures Bumped(rs) <==> Changed(rs)
  {
    FeedStep(rs);
    LoopVariables(rs[..|rs| - 1]);
  }

  lemma AddedModulo(n: nat)
    ensures (n + 1) % 0x1_0000_0000_0000_0000 == WrappingAdd1(n % 0x1_0000_0000_0000_0000, U64_MAX)
  {
  }

  /** The feed counts the changes, in 64 bits. */
  lemma {:induction false} FeedCounts(rs: seq<Round>)
    ensures Run(rs).feed == Changes(rs) % 0x1_0000_0000_0000_0000
  {
    if rs != [] {
      var before := rs[..|rs| - 1];
      FeedCounts(before);
      FeedStep(rs);
      AddedModulo(Changes(before));
    }
  }

  /** The hash polled by the success that last bumped the feed. */
  function HashAtLastBump(rs: seq<Round>): Option<nat> {
    if rs == [] then None
    else if Bumped(rs) then LastOutcome(rs)
    else HashAtLastBump(rs[..|rs| - 1])
  }

  /** No lost change: after every run, the consumer was last told about the latest content. */
  lemma {:induction false} NoLostChange(rs: seq<Round>)
    ensures HashAtLastBump(rs) == LatestHash(rs)
  {
    if rs != [] {
      NoLostChange(rs[..|rs| - 1]);
      BumpsExactly(rs);
    }
  }

  /** A failed round adds exactly one sleep, a backoff for the loop's own count of failures. */
  lemma {:induction false} FailedRoundSleeps(rs: seq<Round>)
    requires rs != [] && !Healthy(rs)
    ensures Run(rs).sleeps == Run(rs[..|rs| - 1]).sleeps + [BackOff(Run(rs).failures)]
  {
    LoopVariables(rs[..|rs| - 1]);
  }

  /** A success is followed by a sleep of the interval exactly when the server cannot push. */
  lemma {:induction false} SuccessSleeps(rs: seq<Round>)
    requires Healthy(rs)
    ensures Run(rs).sleeps == Run(rs[..|rs| - 1]).sleeps + (if Pushes(rs) then [] else [Interval])
  {
    LoopVariables(rs[..|rs| - 1]);
  }

  /**
   A failed round sleeps for the true number of failures since the last success, exactly up to the
   u32 maximum.
   */
  lemma {:induction false} SleepsForTrueCount(rs: seq<Round>)
    requires rs != [] && !Healthy(rs)
    ensures Run(rs).sleeps == Run(rs[..|rs| - 1]).sleeps + [BackOff(FailuresSinceSuccess(rs))]
       <==> FailuresSinceSuccess(rs) <= U32_MAX
  {
    FailedRoundSleeps(rs);
    LoopVariables(rs);
    var sleeps, before := Run(rs).sleeps, Run(rs[..|rs| - 1]).sleeps;
    assert sleeps[|before|] == BackOff(Run(rs).failures);
    assert (before + [BackOff(FailuresSinceSuccess(rs))])[|before|] == BackOff(FailuresSinceSuccess(rs));
  }

  /**
   The time the loop sleeps after a failed round is the exact schedule at the true number of
   failures, for every config that fits in u64 milliseconds.
   */
  lemma {:induction false} SleepsTheExactBackoff(c: Config, rs: seq<Round>)
    requires rs != [] && !Healthy(rs) && FailuresSinceSuccess(rs) <= U32_MAX
    requires c.backoff.initial / Backoff.NANOS_PER_MS <= U64_MAX && c.backoff.max <= U64_MAX * Backoff.NANOS_PER_MS
    ensures Run(rs).sleeps != []
    ensures SleepTime(c, Run(rs).sleeps[|Run(rs).sleeps| - 1])
         == Min(Backoff.ExactMs(c.backoff, FailuresSinceSuccess(rs)) * Backoff.NANOS_PER_MS, c.backoff.max)
  {
    SleepsForTrueCount(rs);
    Backoff.ExactBackoff(c.backoff, FailuresSinceSuccess(rs));
  }

  /**
   Each notification differs from the one before it, and the first from `Connecting`; the last one
   is the state the channel holds.
   */
  predicate Notified(notices: seq<Connection>, current: Connection) {
    && (forall i | 0 <= i < |notices| :: notices[i] != (if i == 0 then Connecting else notices[i - 1]))
    && current == (if notices == [] then Connecting else notices[|notices| - 1])
  }

  lemma {:induction false} NoticesStep(l: Loop, r: Round)
    requires Notified(l.notices, l.connection)
    ensures Notified(Step(l, r).notices, Step(l, r).connection)
  {
  }

  /** No two consecutive connection notifications are ever equal. */
  lemma {:induction false} NoticesChange(rs: seq<Round>)
    ensures Notified(Run(rs).notices, Run(rs).connection)
  {
    if rs != [] {
      NoticesChange(rs[..|rs| - 1]);
      NoticesStep(Run(rs[..|rs| - 1]), rs[|rs| - 1]);
    }
  }
}
