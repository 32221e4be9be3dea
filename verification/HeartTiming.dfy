/**
 The goroutine of one heart in time: its jittered ticker with a one-slot channel, its writes, and the stop
 channel. What it guarantees is stated for every run in which its writes meet a deadline.
 */
module HeartTiming {
  import opened Common
  import opened Ids
  import opened Hearts

  datatype Pc = Starting | Setting | Waiting | Done

  /** When the stop channel was closed, and how many writes had committed by then. */
  datatype StopMark = StopMark(time: int, commits: nat)

  /**
   `cur` is the tick that the current or last write serves (the start for the first), `next` the next tick, `buf`
   the tick waiting in the ticker's channel, `since` when the goroutine was launched or last began to wait.
   `last` and `commits` record the writes that committed, `dropped` the ticks lost to a full channel, `turns` the turns
   of the loop so far.
   */
  datatype Heart = Heart(
    user: ID,
    pc: Pc,
    period: int,
    next: int,
    buf: Option<int>,
    cur: int,
    committed: bool,
    since: int,
    last: Option<int>,
    commits: nat,
    dropped: nat,
    stop: Option<StopMark>,
    turns: seq<Turn>)

  function NewHeart(user: ID, now: int): Heart {
    Heart(user, Starting, 0, 0, None, 0, false, now, None, 0, 0, None, [])
  }

  /** The turns with the last one replaced. */
  function WithLast(turns: seq<Turn>, outcome: SetOutcome, thenStop: bool): seq<Turn> {
    if turns == [] then turns
    else turns[..|turns| - 1] + [turns[|turns| - 1].(outcome := outcome, thenStop := thenStop)]
  }

  datatype Action = Starts(draw: int) | Commits | Returns | Fails | Ticks | TakesTick | TakesStop

  predicate Running(h: Heart) {
    h.pc.Setting? || h.pc.Waiting?
  }

  predicate Enabled(h: Heart, now: int, a: Action) {
    match a
    case Starts(draw) => h.pc.Starting? && 0 <= draw < HEARTBEAT_INTERVAL / 10
    case Commits => h.pc.Setting? && !h.committed
    case Returns => h.pc.Setting? && h.committed
    case Fails => h.pc.Setting?
    case Ticks => Running(h) && now == h.next
    case TakesTick => h.pc.Waiting? && h.buf.Some?
    case TakesStop => h.pc.Waiting? && h.stop.Some?
  }

  function Apply(h: Heart, now: int, a: Action): Heart
    requires Enabled(h, now, a)
  {
    match a
    case Starts(draw) =>
      var period := AddJitter(HEARTBEAT_INTERVAL, draw);
      h.(pc := Setting, period := period, next := now + period, cur := now, committed := false)
    case Commits =>
      h.(committed := true, last := Some(now), commits := h.commits + 1, turns := h.turns + [Turn(now, Stored, false)])
    case Returns => h.(pc := Waiting, since := now)
    case Fails =>
      h.(pc := Done,
         turns := if h.committed then WithLast(h.turns, ReplyLost, false) else h.turns + [Turn(now, Refused, false)])
    case Ticks =>
      h.(next := h.next + h.period,
         buf := if h.buf.None? then Some(now) else h.buf,
         dropped := if h.buf.None? then h.dropped else h.dropped + 1)
    case TakesTick => h.(pc := Setting, cur := h.buf.value, buf := None, committed := false)
    case TakesStop => h.(pc := Done, turns := WithLast(h.turns, Stored, true))
  }

  function Marked(h: Heart, now: int): Heart {
    h.(stop := Some(StopMark(now, h.commits)))
  }

  predicate Passes(h: Heart, now: int, now': int) {
    now <= now' && (Running(h) && now < now' ==> now' <= h.next)
  }

  /**
   One step as the heart sees it: nothing, time passing up to its next tick, its own step, or the close of its stop
   channel.
   */
  ghost predicate Move(h: Heart, now: int, h': Heart, now': int) {
    || (h' == h && Passes(h, now, now'))
    || (now' == now && exists a :: Enabled(h, now, a) && h' == Apply(h, now, a))
    || (now' == now && h.stop.None? && h' == Marked(h, now))
  }

  /** A heart keeps its user, and its last write only ever moves to the present. */
  lemma MoveKeepsHistory(h: Heart, now: int, h': Heart, now': int)
    requires Move(h, now, h', now')
    ensures h'.user == h.user && now <= now' && (h'.last == h.last || h'.last == Some(now))
  {
  }

  /** Every write commits within `latency` of its tick: no such deadline has been passed. */
  predicate CommitsOnTime(h: Heart, now: int, latency: int) {
    Running(h) ==>
      && (!h.committed ==> now <= h.cur + latency)
      && (h.buf.Some? ==> now <= h.buf.value + latency)
  }

  function Max(a: int, b: int): int {
    if a < b then b else a
  }

  /**
   Every write returns within `latency` of its tick, the goroutine starts at once, and a ready select is taken at
   once.
   */
  predicate ReturnsOnTime(h: Heart, now: int, latency: int) {
    && (h.pc.Starting? ==> now <= h.since)
    && (h.pc.Setting? ==> now <= h.cur + latency)
    && (h.pc.Waiting? && h.buf.Some? ==> now <= Max(h.buf.value, h.since))
    && (h.pc.Waiting? && h.stop.Some? ==> now <= Max(h.stop.value.time, h.since))
  }

  /** The longest latency of a commit that keeps the entry alive. */
  const MAX_LATENCY: int := 9 * SECOND

  /** A deadline for the writes of a heart: by when they commit, or by when they return. */
  datatype Deadline = CommitWithin(latency: int) | ReturnWithin(latency: int)

  predicate Meets(h: Heart, now: int, d: Deadline) {
    match d
    case CommitWithin(latency) => CommitsOnTime(h, now, latency)
    case ReturnWithin(latency) => ReturnsOnTime(h, now, latency)
  }

  // ---------- continuity ----------

  ghost predicate TimedInv(h: Heart, now: int) {
    && (h.pc.Starting? ==> h.last.None? && h.commits == 0 && h.dropped == 0 && h.buf.None? && h.since <= now)
    && (h.last.Some? ==> h.last.value <= now)
    && (Running(h) ==>
          && HEARTBEAT_INTERVAL <= h.period < HEARTBEAT_INTERVAL + SECOND
          && h.cur <= now <= h.next
          && h.dropped == 0
          && (h.buf.None? ==> h.next == h.cur + h.period)
          && (h.buf.Some? ==> h.committed && h.buf.value == h.cur + h.period <= now && h.next == h.buf.value + h.period)
          && (h.pc.Waiting? ==> h.committed)
          && (h.committed ==> h.last.Some? && h.cur <= h.last.value)
          && (!h.committed && h.last.Some? ==> h.cur - h.period <= h.last.value))
  }

  lemma ApplyKeepsTimed(h: Heart, now: int, a: Action, latency: int)
    requires Enabled(h, now, a) && TimedInv(h, now)
    requires latency < HEARTBEAT_INTERVAL && CommitsOnTime(h, now, latency)
    ensures TimedInv(Apply(h, now, a), now)
  {
    match a
    case Ticks => // the slot is empty: the write for the tick before has been issued and committed
      assert h.buf.None? && h.committed;
    case _ =>
  }

  lemma MoveKeepsTimed(h: Heart, now: int, h': Heart, now': int, latency: int)
    requires Move(h, now, h', now') && TimedInv(h, now)
    requires latency < HEARTBEAT_INTERVAL && CommitsOnTime(h, now, latency)
    ensures TimedInv(h', now')
  {
    if a :| now' == now && Enabled(h, now, a) && h' == Apply(h, now, a) {
      ApplyKeepsTimed(h, now, a, latency);
    }
  }

  /** A heart that has written and not ended has written less than 20 seconds ago. */
  lemma TimedIsFresh(h: Heart, now: int, latency: int)
    requires TimedInv(h, now) && CommitsOnTime(h, now, latency) && latency <= MAX_LATENCY
    requires h.last.Some? && !h.pc.Done?
    ensures h.last.value <= now < h.last.value + HEARTBEAT_TTL
  {
  }

  // ---------- decay ----------

  ghost predicate PromptInv(h: Heart, now: int, latency: int) {
    && TimedInv(h, now)
    && (h.pc.Setting? ==> h.buf.None?)
    && (h.pc.Waiting? ==> h.cur <= h.since <= h.cur + latency && h.since <= now)
  }

  /** After the stop: at most one more commit, and where the goroutine may still be. */
  ghost predicate StoppedInv(h: Heart, now: int, latency: int) {
    h.stop.Some? ==>
      var m := h.stop.value;
      && m.time <= now && m.commits <= h.commits <= m.commits + 1
      && (h.last.Some? ==> h.last.value <= m.time + if h.commits == m.commits then 0 else latency)
      && (h.pc.Starting? ==> h.since <= m.time && h.commits == m.commits)
      && (h.pc.Setting? ==> h.cur <= m.time && (!h.committed ==> h.commits == m.commits))
      && (h.pc.Waiting? && h.buf.Some? ==> h.commits == m.commits && h.buf.value <= m.time)
      && (h.pc.Waiting? && h.commits == m.commits + 1 ==> m.time <= h.since)
  }

  lemma PromptIsOnTime(h: Heart, now: int, latency: int)
    requires PromptInv(h, now, latency) && ReturnsOnTime(h, now, latency) && 0 <= latency < HEARTBEAT_INTERVAL
    ensures CommitsOnTime(h, now, latency)
  {
  }

  lemma MoveKeepsPrompt(h: Heart, now: int, h': Heart, now': int, latency: int)
    requires Move(h, now, h', now') && PromptInv(h, now, latency) && 0 <= latency < HEARTBEAT_INTERVAL
    requires ReturnsOnTime(h, now, latency)
    ensures PromptInv(h', now', latency)
  {
    PromptIsOnTime(h, now, latency);
    MoveKeepsTimed(h, now, h', now', latency);
  }

  lemma MoveKeepsStopped(h: Heart, now: int, h': Heart, now': int, latency: int)
    requires Move(h, now, h', now') && PromptInv(h, now, latency) && StoppedInv(h, now, latency)
    requires ReturnsOnTime(h, now, latency) && 0 <= latency < HEARTBEAT_INTERVAL
    ensures StoppedInv(h', now', latency)
  {
    PromptIsOnTime(h, now, latency);
  }

  // ---------- the bound on continuity is tight ----------

  datatype Moment = Moment(heart: Heart, now: int)

  ghost predicate MomentStep(ms: seq<Moment>, i: nat)
    requires i + 1 < |ms|
  {
    Move(ms[i].heart, ms[i].now, ms[i + 1].heart, ms[i + 1].now)
  }

  ghost predicate IsHeartRun(ms: seq<Moment>) {
    && |ms| > 0 && ms[0] == Moment(NewHeart(ms[0].heart.user, ms[0].now), ms[0].now)
    && (forall i: nat :: i + 1 < |ms| ==> MomentStep(ms, i))
  }

  ghost predicate AllMeet(ms: seq<Moment>, d: Deadline) {
    forall i :: 0 <= i < |ms| ==> Meets(ms[i].heart, ms[i].now, d)
  }

  /** The entry of the last write has expired although the heart runs. */
  ghost predicate Lapsed(ms: seq<Moment>)
    requires |ms| > 0
  {
    var m := ms[|ms| - 1];
    Running(m.heart) && m.heart.last.Some? && m.heart.last.value + HEARTBEAT_TTL <= m.now
  }

  lemma {:induction false} TimedOverRun(ms: seq<Moment>, i: nat, latency: int)
    requires IsHeartRun(ms) && AllMeet(ms, CommitWithin(latency)) && i < |ms| && latency < HEARTBEAT_INTERVAL
    ensures TimedInv(ms[i].heart, ms[i].now)
  {
    if 0 < i {
      TimedOverRun(ms, i - 1, latency);
      assert MomentStep(ms, i - 1);
      MoveKeepsTimed(ms[i - 1].heart, ms[i - 1].now, ms[i].heart, ms[i].now, latency);
    }
  }

  /** No run of a heart lapses, whatever its jitter, exactly when the latency bound is at most 9 seconds. */
  lemma LatencyBoundIsExact(latency: int)
    requires 0 <= latency
    ensures latency <= MAX_LATENCY
      <==> forall ms: seq<Moment> :: |ms| > 0 && IsHeartRun(ms) && AllMeet(ms, CommitWithin(latency)) ==> !Lapsed(ms)
  {
    if latency <= MAX_LATENCY {
      forall ms: seq<Moment> | |ms| > 0 && IsHeartRun(ms) && AllMeet(ms, CommitWithin(latency)) ensures !Lapsed(ms) {
        var n := |ms| - 1;
        TimedOverRun(ms, n, latency);
        if Running(ms[n].heart) && ms[n].heart.last.Some? {
          TimedIsFresh(ms[n].heart, ms[n].now, latency);
        }
      }
    } else {
      LapsingRun(latency);
    }
  }

  ghost predicate RunTo(ms: seq<Moment>, m: Moment, d: Deadline) {
    |ms| > 0 && IsHeartRun(ms) && AllMeet(ms, d) && ms[|ms| - 1] == m
  }

  ghost predicate Reachable(h: Heart, now: int, d: Deadline) {
    exists ms :: RunTo(ms, Moment(h, now), d)
  }

  lemma ExtendRun(ms: seq<Moment>, m: Moment, m': Moment, d: Deadline)
    requires RunTo(ms, m, d) && Move(m.heart, m.now, m'.heart, m'.now) && Meets(m'.heart, m'.now, d)
    ensures RunTo(ms + [m'], m', d)
  {
    var ms' := ms + [m'];
    forall i: nat | i + 1 < |ms'| ensures MomentStep(ms', i) {
      if i + 1 < |ms| { assert MomentStep(ms, i); }
    }
  }

  lemma Extend(h: Heart, now: int, h': Heart, now': int, d: Deadline)
    requires Reachable(h, now, d) && Move(h, now, h', now') && Meets(h', now', d)
    ensures Reachable(h', now', d)
  {
    var ms :| RunTo(ms, Moment(h, now), d);
    ExtendRun(ms, Moment(h, now), Moment(h', now'), d);
  }

  /** A heart that starts at time 0 reaches its first write. */
  lemma FirstWriteReachable(user: ID, draw: int, d: Deadline)
    requires 0 <= draw < HEARTBEAT_INTERVAL / 10 && 0 <= d.latency
    ensures Reachable(Apply(NewHeart(user, 0), 0, Starts(draw)), 0, d)
  {
    var h := NewHeart(user, 0);
    assert RunTo([Moment(h, 0)], Moment(h, 0), d);
    assert Enabled(h, 0, Starts(draw));
    Extend(h, 0, Apply(h, 0, Starts(draw)), 0, d);
  }

  /**
   With the longest jitter and one nanosecond more latency, the second write comes when the entry has just expired.
   */
  lemma LapsingRun(latency: int)
    requires MAX_LATENCY < latency
    ensures exists ms: seq<Moment> :: |ms| > 0 && IsHeartRun(ms) && AllMeet(ms, CommitWithin(latency)) && Lapsed(ms)
  {
    var u: ID, d := seq(16, _ => 0), CommitWithin(latency);
    FirstWriteReachable(u, SECOND - 1, d);
    var h1 := Apply(NewHeart(u, 0), 0, Starts(SECOND - 1));
    var p := h1.next;
    var h2 := Apply(h1, 0, Commits);
    Extend(h1, 0, h2, 0, d);
    var h3 := Apply(h2, 0, Returns);
    Extend(h2, 0, h3, 0, d);
    Extend(h3, 0, h3, p, d);
    var h4 := Apply(h3, p, Ticks);
    Extend(h3, p, h4, p, d);
    var h5 := Apply(h4, p, TakesTick);
    Extend(h4, p, h5, p, d);
    Extend(h5, p, h5, 20 * SECOND, d);
    var ms :| RunTo(ms, Moment(h5, 20 * SECOND), d);
    assert Lapsed(ms);
  }

  // ---------- the bound on decay is tight ----------

  /** Two or more writes have committed since the stop channel was closed. */
  ghost predicate WritesTwiceAfterStop(ms: seq<Moment>)
    requires |ms| > 0
  {
    var h := ms[|ms| - 1].heart;
    h.stop.Some? && h.stop.value.commits + 2 <= h.commits
  }

  lemma {:induction false} StoppedOverRun(ms: seq<Moment>, i: nat, latency: int)
    requires IsHeartRun(ms) && AllMeet(ms, ReturnWithin(latency)) && i < |ms| && 0 <= latency < HEARTBEAT_INTERVAL
    ensures PromptInv(ms[i].heart, ms[i].now, latency) && StoppedInv(ms[i].heart, ms[i].now, latency)
  {
    if 0 < i {
      StoppedOverRun(ms, i - 1, latency);
      assert MomentStep(ms, i - 1);
      MoveKeepsPrompt(ms[i - 1].heart, ms[i - 1].now, ms[i].heart, ms[i].now, latency);
      MoveKeepsStopped(ms[i - 1].heart, ms[i - 1].now, ms[i].heart, ms[i].now, latency);
    }
  }

  /**
   A heart that is stopped never writes twice after it, in any run that meets the deadline, exactly when the deadline
   is one on the return of the writes and is shorter than the shortest period. A bound on commits alone never suffices.
   */
  lemma DecayBoundIsExact(d: Deadline)
    requires 0 <= d.latency
    ensures d.ReturnWithin? && d.latency < HEARTBEAT_INTERVAL
      <==> forall ms: seq<Moment> :: |ms| > 0 && IsHeartRun(ms) && AllMeet(ms, d) ==> !WritesTwiceAfterStop(ms)
  {
    if d.ReturnWithin? && d.latency < HEARTBEAT_INTERVAL {
      forall ms: seq<Moment> | |ms| > 0 && IsHeartRun(ms) && AllMeet(ms, d) ensures !WritesTwiceAfterStop(ms) {
        StoppedOverRun(ms, |ms| - 1, d.latency);
      }
    } else {
      SlowReturnWritesTwice(d);
    }
  }

  /** When a write returns only at the next tick, the select finds both channels ready and may take the tick. */
  lemma SlowReturnWritesTwice(d: Deadline)
    requires if d.CommitWithin? then 0 <= d.latency else HEARTBEAT_INTERVAL <= d.latency
    ensures exists ms: seq<Moment> :: |ms| > 0 && IsHeartRun(ms) && AllMeet(ms, d) && WritesTwiceAfterStop(ms)
  {
    var u: ID := seq(16, _ => 0);
    FirstWriteReachable(u, 0, d);
    var h1 := Apply(NewHeart(u, 0), 0, Starts(0));
    var p := h1.next;
    var h2 := Marked(h1, 0);
    Extend(h1, 0, h2, 0, d);
    var h3 := Apply(h2, 0, Commits);
    Extend(h2, 0, h3, 0, d);
    Extend(h3, 0, h3, p, d);
    var h4 := Apply(h3, p, Ticks);
    Extend(h3, p, h4, p, d);
    var h5 := Apply(h4, p, Returns);
    Extend(h4, p, h5, p, d);
    var h6 := Apply(h5, p, TakesTick);
    Extend(h5, p, h6, p, d);
    var h7 := Apply(h6, p, Commits);
    Extend(h6, p, h7, p, d);
    var ms :| RunTo(ms, Moment(h7, p), d);
    assert WritesTwiceAfterStop(ms);
  }
}
