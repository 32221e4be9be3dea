/**
 The client's heartbeat to the gateway: a 10 second ticker, a skip test in whole seconds, and the 30 second entry it
 must keep alive.
 */
module ClientHeartbeat {
  import opened Common
  import opened Ids
  import opened Memstore
  import opened ActiveUsers

  const INTERVAL: int := 10 * SECOND

  /** Time.Unix: whole seconds, rounded down. */
  function Unix(t: int): int {
    t / SECOND
  }

  /** The test at the start of maybeHeartbeat. */
  predicate Skips(now: int, lastRequestAt: int) {
    Unix(now - INTERVAL) < lastRequestAt
  }

  /** Whole seconds are never ahead of the time and less than one second behind it. */
  lemma UnixTruncates(t: int)
    ensures Unix(t) * SECOND <= t < (Unix(t) + 1) * SECOND
  {
  }

  /** The test skips exactly until a full interval after the second that was stored. */
  lemma SkipsExactly(now: int, lastRequestAt: int)
    ensures Skips(now, lastRequestAt) <==> now < lastRequestAt * SECOND + INTERVAL
  {
    UnixTruncates(now - INTERVAL);
  }

  /**
   One turn of the loop: when the test runs, whether the gateway answered 200 and when, and whether a stop follows.
   */
  datatype Turn = Turn(checkAt: int, answered: bool, answeredAt: int, thenStop: bool)

  function AfterTurn(lastRequestAt: int, t: Turn): int {
    if !Skips(t.checkAt, lastRequestAt) && t.answered then Unix(t.answeredAt) else lastRequestAt
  }

  /** The value of lastRequestAt after the turns up to the first stop. */
  function AfterTurns(lastRequestAt: int, turns: seq<Turn>): int
    decreases |turns|
  {
    if turns == [] then lastRequestAt
    else if turns[0].thenStop then AfterTurn(lastRequestAt, turns[0])
    else AfterTurns(AfterTurn(lastRequestAt, turns[0]), turns[1..])
  }

  datatype Pc = Checking | Sending(written: bool) | Parked | Stopped

  /**
   The loop of one client and the store its heartbeats reach. `cur` is the tick that the current or last iteration
   serves (the start of the loop for the first one), `next` the next tick, `buf` the tick in the ticker's one-slot
   channel, `checkAt` the time of the last skip test. The rest is history: `skipped` says that the last completed
   iteration was skipped, `anchor` is the tick of the last iteration that marked the client as active, `lastWrite`
   and `writeTick` are the time and the tick of the last write at the server.
   */
  datatype State = State(
    prefix: string,
    user: ID,
    now: int,
    next: int,
    buf: Option<int>,
    cur: int,
    pc: Pc,
    lastRequestAt: int,
    db: Db,
    skipped: bool,
    anchor: int,
    dropped: nat,
    failures: nat,
    lastWrite: Option<int>,
    writeTick: int,
    checkAt: int,
    turns: seq<Turn>)

  ghost predicate Init(s: State) {
    && s.next == s.now + INTERVAL && s.buf.None? && s.cur == s.now && s.pc.Checking?
    && s.lastRequestAt <= Unix(s.now) // marked at login, before the loop starts
    && !s.skipped && s.anchor == s.now - INTERVAL && s.dropped == 0 && s.failures == 0 && s.lastWrite.None?
    && s.turns == []
    && UsersInv(s) // what other clients have written before
  }

  datatype Action =
    | Check
    | ServerWrites(username: string, lastSeen: int)
    | Answered
    | Fails
    | TickFires
    | TakeTick
    | TakeStop
    | OtherWrite(collection: string, key: string, value: Payload, ttl: int)
    | Advance(t: int)

  /** Every entry of the collection is the JSON of a user. */
  ghost predicate UsersInv(s: State) {
    forall k :: UserOrNone(s, k)
  }

  predicate UserOrNone(s: State, k: string) {
    var e := Lookup(s.db, s.prefix, ACTIVE_USERS, k);
    e.Some? ==> e.value.payload.UserJSON?
  }

  predicate CanStep(s: State, a: Action) {
    match a
    case Check => s.pc.Checking?
    case ServerWrites(_, _) => s.pc == Sending(false)
    case Answered => s.pc == Sending(true)
    case Fails => s.pc.Sending?
    case TickFires => s.now == s.next && !s.pc.Stopped?
    case TakeTick => s.pc.Parked? && s.buf.Some?
    case TakeStop => s.pc.Parked?
    // into this collection only heartbeats write, for other users or for the same one on another client
    case OtherWrite(c, k, v, ttl) =>
      SeparatorFree(c) && (c == ACTIVE_USERS ==> ttl == ACTIVE_USER_TTL && v.UserJSON? && k == String(v.user.id))
    case Advance(t) => s.now < t && (!s.pc.Stopped? ==> t <= s.next)
  }

  /** An iteration is completed: the loop comes to its select. */
  function Parks(s: State, answered: bool): State {
    s.(pc := Parked, turns := s.turns + [Turn(s.checkAt, answered, s.now, false)])
  }

  function StopSeen(turns: seq<Turn>): seq<Turn> {
    if turns == [] then turns else turns[..|turns| - 1] + [turns[|turns| - 1].(thenStop := true)]
  }

  function Step(s: State, a: Action): State
    requires CanStep(s, a)
  {
    match a
    case Check =>
      if Skips(s.now, s.lastRequestAt) then Parks(s.(skipped := true, checkAt := s.now), false)
      else s.(pc := Sending(false), checkAt := s.now)
    case ServerWrites(name, seen) =>
      var usr := ActiveUser(s.user, name, seen);
      s.(db := SetWithTTL(s.db, s.prefix, ACTIVE_USERS, String(s.user), UserJSON(usr), s.now, ACTIVE_USER_TTL),
         pc := Sending(true), lastWrite := Some(s.now), writeTick := s.cur)
    case Answered => Parks(s.(lastRequestAt := Unix(s.now), skipped := false, anchor := s.cur), true)
    case Fails => Parks(s.(skipped := false, failures := s.failures + 1), false)
    case TickFires =>
      s.(next := s.next + INTERVAL,
         buf := if s.buf.None? then Some(s.now) else s.buf,
         dropped := if s.buf.None? then s.dropped else s.dropped + 1)
    case TakeTick => s.(pc := Checking, cur := s.buf.value, buf := None)
    case TakeStop => s.(pc := Stopped, turns := StopSeen(s.turns))
    case OtherWrite(c, k, v, ttl) => s.(db := SetWithTTL(s.db, s.prefix, c, k, v, s.now, ttl))
    case Advance(t) => s.(now := t)
  }

  ghost predicate Next(s: State, s': State) {
    exists a :: CanStep(s, a) && s' == Step(s, a)
  }

  /** Every iteration is completed within `latency` of its tick: no such deadline has been passed. */
  ghost predicate OnTime(s: State, latency: int) {
    && (s.pc.Checking? || s.pc.Sending? ==> s.now <= s.cur + latency)
    && (s.pc.Parked? && s.buf.Some? ==> s.now <= s.buf.value + latency)
  }

  ghost predicate StepAt(tr: seq<State>, i: nat)
    requires i + 1 < |tr|
  {
    Next(tr[i], tr[i + 1])
  }

  ghost predicate IsRun(tr: seq<State>) {
    && |tr| > 0 && Init(tr[0])
    && (forall i: nat :: i + 1 < |tr| ==> StepAt(tr, i))
  }

  ghost predicate AllOnTime(tr: seq<State>, latency: int) {
    forall i :: 0 <= i < |tr| ==> OnTime(tr[i], latency)
  }

  // ---------- invariant ----------

  ghost predicate TickerInv(s: State) {
    && s.cur <= s.now <= s.next
    && s.dropped == 0
    && (s.buf.None? ==> s.next == s.cur + INTERVAL)
    && (s.buf.Some? ==> s.pc.Parked? && s.buf.value == s.cur + INTERVAL <= s.now && s.next == s.buf.value + INTERVAL)
  }

  /** Each iteration is one or two ticks after the one that last marked the client as active. */
  ghost predicate SkipInv(s: State) {
    && s.lastRequestAt <= Unix(s.anchor + INTERVAL)
    && (s.pc.Parked? ==> s.cur == s.anchor + if s.skipped then INTERVAL else 0)
    && (s.pc.Checking? || s.pc.Sending? ==> s.cur == s.anchor + if s.skipped then 2 * INTERVAL else INTERVAL)
  }

  ghost predicate WriteInv(s: State) {
    s.lastWrite.Some? ==>
      && s.writeTick <= s.lastWrite.value
      && s.writeTick == (if s.pc == Sending(true) then s.cur else s.anchor)
  }

  ghost predicate EntryInv(s: State) {
    s.lastWrite.Some? ==>
      var e := Lookup(s.db, s.prefix, ACTIVE_USERS, String(s.user));
      && e.Some? && e.value.payload.UserJSON? && e.value.payload.user.id == s.user
      && s.lastWrite.value <= s.now && s.lastWrite.value + ACTIVE_USER_TTL <= e.value.expiry
  }

  ghost predicate Inv(s: State) {
    EntryInv(s) && UsersInv(s) && (s.failures == 0 && !s.pc.Stopped? ==> TickerInv(s) && SkipInv(s) && WriteInv(s))
  }

  lemma EntryStep(s: State, a: Action)
    requires CanStep(s, a) && EntryInv(s)
    ensures EntryInv(Step(s, a))
  {
    match a
    case ServerWrites(name, seen) =>
      var usr := UserJSON(ActiveUser(s.user, name, seen));
      StoreRefinesCollections(s.db, s.prefix, ACTIVE_USERS, String(s.user), usr, s.now, ACTIVE_USER_TTL,
                              ACTIVE_USERS, String(s.user));
    case OtherWrite(c, k, v, ttl) =>
      StoreRefinesCollections(s.db, s.prefix, c, k, v, s.now, ttl, ACTIVE_USERS, String(s.user));
      if c == ACTIVE_USERS && k == String(s.user) { StringInjective(v.user.id, s.user); }
    case _ =>
  }

  lemma UsersStep(s: State, a: Action)
    requires CanStep(s, a) && UsersInv(s)
    ensures UsersInv(Step(s, a))
  {
    forall k ensures UserOrNone(Step(s, a), k) {
      assert UserOrNone(s, k);
      match a
      case ServerWrites(name, seen) =>
        var usr := UserJSON(ActiveUser(s.user, name, seen));
        StoreRefinesCollections(s.db, s.prefix, ACTIVE_USERS, String(s.user), usr, s.now, ACTIVE_USER_TTL,
                                ACTIVE_USERS, k);
      case OtherWrite(c, key, v, ttl) =>
        StoreRefinesCollections(s.db, s.prefix, c, key, v, s.now, ttl, ACTIVE_USERS, k);
      case _ =>
    }
  }

  /** The skip test, two ticks after the last mark: whole seconds never hold the client back twice. */
  lemma SecondTickSends(s: State)
    requires SkipInv(s) && s.pc.Checking? && s.skipped && s.cur <= s.now
    ensures !Skips(s.now, s.lastRequestAt)
  {
    UnixMonotone(s.anchor + INTERVAL, s.now - INTERVAL);
  }

  lemma UnixMonotone(a: int, b: int)
    requires a <= b
    ensures Unix(a) <= Unix(b)
  {
  }

  lemma TickerStep(s: State, a: Action, latency: int)
    requires CanStep(s, a) && OnTime(s, latency) && latency < INTERVAL && TickerInv(s) && !Step(s, a).pc.Stopped?
    ensures TickerInv(Step(s, a))
  {
  }

  lemma SkipStep(s: State, a: Action, latency: int)
    requires CanStep(s, a) && OnTime(s, latency) && latency < INTERVAL && TickerInv(s) && SkipInv(s)
    requires Step(s, a).failures == 0
    ensures SkipInv(Step(s, a))
  {
    if a.Check? && s.skipped {
      SecondTickSends(s);
    }
    if a.Answered? {
      UnixMonotone(s.now, s.cur + INTERVAL);
    }
  }

  lemma WriteStep(s: State, a: Action)
    requires CanStep(s, a) && TickerInv(s) && WriteInv(s) && Step(s, a).failures == 0
    ensures WriteInv(Step(s, a))
  {
  }

  lemma TimedStep(s: State, a: Action, latency: int)
    requires CanStep(s, a) && OnTime(s, latency) && latency < INTERVAL
    requires TickerInv(s) && SkipInv(s) && WriteInv(s) && Step(s, a).failures == 0 && !Step(s, a).pc.Stopped?
    ensures TickerInv(Step(s, a)) && SkipInv(Step(s, a)) && WriteInv(Step(s, a))
  {
    TickerStep(s, a, latency);
    SkipStep(s, a, latency);
    WriteStep(s, a);
  }

  lemma FailuresRemain(s: State, a: Action)
    requires CanStep(s, a)
    ensures s.failures <= Step(s, a).failures && (s.pc.Stopped? ==> Step(s, a).pc.Stopped?)
  {
  }

  lemma NextKeepsInv(s: State, s': State, latency: int)
    requires Inv(s) && OnTime(s, latency) && latency < INTERVAL && Next(s, s')
    ensures Inv(s')
  {
    var a :| CanStep(s, a) && s' == Step(s, a);
    EntryStep(s, a);
    UsersStep(s, a);
    FailuresRemain(s, a);
    if s'.failures == 0 && !s'.pc.Stopped? {
      TimedStep(s, a, latency);
    }
  }

  lemma {:induction false} RunInv(tr: seq<State>, i: nat, latency: int)
    requires IsRun(tr) && AllOnTime(tr, latency) && latency < INTERVAL && i < |tr|
    ensures Inv(tr[i])
  {
    if 0 < i {
      RunInv(tr, i - 1, latency);
      assert StepAt(tr, i - 1);
      NextKeepsInv(tr[i - 1], tr[i], latency);
    }
  }

  // ---------- theorems ----------

  /** No tick is lost, and after a skipped tick the next one always sends. */
  lemma SkipsAtMostOneTick(tr: seq<State>, i: nat, latency: int)
    requires IsRun(tr) && AllOnTime(tr, latency) && latency < INTERVAL && i < |tr| && tr[i].failures == 0
    requires !tr[i].pc.Stopped?
    ensures tr[i].dropped == 0
    ensures tr[i].pc.Checking? && tr[i].skipped ==> Step(tr[i], Check).pc == Sending(false)
  {
    RunInv(tr, i, latency);
    if tr[i].pc.Checking? && tr[i].skipped {
      SecondTickSends(tr[i]);
    }
  }

  /**
   From the first write on, while the loop runs and every iteration takes less than 10 seconds, the last write is
   always less than 30 seconds old and the user's entry is live.
   */
  lemma ClientContinuity(tr: seq<State>, i: nat, latency: int)
    requires IsRun(tr) && AllOnTime(tr, latency) && latency < INTERVAL && i < |tr| && tr[i].failures == 0
    requires !tr[i].pc.Stopped? && tr[i].lastWrite.Some?
    ensures tr[i].lastWrite.value <= tr[i].now < tr[i].lastWrite.value + ACTIVE_USER_TTL
    ensures Live(tr[i].db, CollectionKey(tr[i].prefix, ACTIVE_USERS, String(tr[i].user)), tr[i].now)
  {
    RunInv(tr, i, latency);
  }

  /** So every listing taken in such a state succeeds and shows the user. */
  lemma ContinuouslyListed(tr: seq<State>, i: nat, latency: int, keys: seq<string>, r: Result<seq<ActiveUser>>)
    requires IsRun(tr) && AllOnTime(tr, latency) && latency < INTERVAL && i < |tr|
    requires tr[i].failures == 0 && !tr[i].pc.Stopped? && tr[i].lastWrite.Some?
    requires Literal(tr[i].prefix)
    requires KeysReply(tr[i].db, CollectionPattern(tr[i].prefix, ACTIVE_USERS), tr[i].now, keys)
    requires Answers(r, tr[i].db, tr[i].now, keys)
    ensures r.Ok? && exists j :: 0 <= j < |r.value| && r.value[j].id == tr[i].user
  {
    var s := tr[i];
    var f := CollectionKey(s.prefix, ACTIVE_USERS, String(s.user));
    ClientContinuity(tr, i, latency);
    RunInv(tr, i, latency);
    ListingUnderConcurrency(s.prefix, ACTIVE_USERS, s.db, s.now, keys, s.db, s.now);
    AllDecode(s, keys);
    assert f in Survivors(s.db, s.now, keys);
    var j :| 0 <= j < |r.value| && Survivors(s.db, s.now, keys)[j] == f;
    assert Ok(r.value[j]) == DecodeUser(s.db[f].payload);
  }

  lemma AllDecode(s: State, keys: seq<string>)
    requires UsersInv(s)
    requires forall f :: f in Survivors(s.db, s.now, keys) ==> exists k :: f == CollectionKey(s.prefix, ACTIVE_USERS, k)
    ensures forall f :: f in Survivors(s.db, s.now, keys) && f in s.db ==> DecodeUser(s.db[f].payload).Ok?
  {
    forall f | f in Survivors(s.db, s.now, keys) && f in s.db ensures DecodeUser(s.db[f].payload).Ok? {
      var k :| f == CollectionKey(s.prefix, ACTIVE_USERS, k);
      assert UserOrNone(s, k);
    }
  }

  /** The user's entry has expired although the loop runs and no heartbeat has failed. */
  ghost predicate Lapsed(tr: seq<State>)
    requires |tr| > 0
  {
    var s := tr[|tr| - 1];
    s.failures == 0 && !s.pc.Stopped? && s.lastWrite.Some? && s.lastWrite.value + ACTIVE_USER_TTL <= s.now
  }

  /** No run lapses exactly when every iteration takes less than the 10 second interval. */
  lemma LatencyBoundIsExact(latency: int)
    ensures latency < INTERVAL
      <==> forall tr: seq<State> :: |tr| > 0 && IsRun(tr) && AllOnTime(tr, latency) ==> !Lapsed(tr)
  {
    if latency < INTERVAL {
      forall tr: seq<State> | |tr| > 0 && IsRun(tr) && AllOnTime(tr, latency) ensures !Lapsed(tr) {
        var s := tr[|tr| - 1];
        if s.failures == 0 && !s.pc.Stopped? && s.lastWrite.Some? {
          ClientContinuity(tr, |tr| - 1, latency);
        }
      }
    } else {
      LapsingRun(latency);
    }
  }

  ghost predicate RunTo(tr: seq<State>, s: State, latency: int) {
    |tr| > 0 && IsRun(tr) && AllOnTime(tr, latency) && tr[|tr| - 1] == s
  }

  ghost predicate Reachable(s: State, latency: int) {
    exists tr :: RunTo(tr, s, latency)
  }

  lemma Extend(s: State, a: Action, latency: int)
    requires Reachable(s, latency) && CanStep(s, a) && OnTime(Step(s, a), latency)
    ensures Reachable(Step(s, a), latency)
  {
    var tr :| RunTo(tr, s, latency);
    var s' := Step(s, a);
    assert Next(s, s');
    ExtendRun(tr, s, s', latency);
  }

  lemma ExtendRun(tr: seq<State>, s: State, s': State, latency: int)
    requires RunTo(tr, s, latency) && Next(s, s') && OnTime(s', latency)
    ensures RunTo(tr + [s'], s', latency)
  {
    var tr' := tr + [s'];
    forall i: nat | i + 1 < |tr'| ensures StepAt(tr', i) {
      if i + 1 < |tr| { assert StepAt(tr, i); }
    }
  }

  /** The start of a client's loop at second 1000 that is allowed to send at once. */
  function Started(): State {
    var t := 1000 * SECOND;
    State("", seq(16, _ => 0), t, t + INTERVAL, None, t, Checking, 0, map[], false, t - INTERVAL, 0, 0, None, 0, 0, [])
  }

  /** The first heartbeat was written at the tick and answered one second later. */
  predicate FirstSent(s: State) {
    && s.pc.Parked? && s.buf.None? && s.failures == 0
    && s.now == 1001 * SECOND && s.next == 1010 * SECOND
    && s.lastRequestAt == 1001 && s.lastWrite == Some(1000 * SECOND)
  }

  lemma FirstWriteReachable(latency: int)
    requires INTERVAL <= latency
    ensures Reachable(Step(Step(Started(), Check), ServerWrites("", 0)), latency)
  {
    var s := Started();
    assert Init(s) && RunTo([s], s, latency);
    Extend(s, Check, latency);
    Extend(Step(s, Check), ServerWrites("", 0), latency);
  }

  lemma FirstSentReachable(latency: int)
    requires INTERVAL <= latency
    ensures exists s :: FirstSent(s) && Reachable(s, latency)
  {
    FirstWriteReachable(latency);
    var s := Step(Step(Started(), Check), ServerWrites("", 0));
    Extend(s, Advance(s.now + SECOND), latency);
    var s' := Step(s, Advance(s.now + SECOND));
    Extend(s', Answered, latency);
    assert FirstSent(Step(s', Answered));
  }

  function AtNextTick(s: State): State {
    s.(now := s.next, next := s.next + INTERVAL, pc := Checking, cur := s.next)
  }

  /** From a parked client: time runs to the next tick, which is taken. */
  lemma NextTickReachable(s: State, latency: int)
    requires Reachable(s, latency) && INTERVAL <= latency && s.pc.Parked? && s.buf.None? && s.now < s.next
    ensures Reachable(AtNextTick(s), latency)
  {
    Extend(s, Advance(s.next), latency);
    var s1 := Step(s, Advance(s.next));
    Extend(s1, TickFires, latency);
    Extend(Step(s1, TickFires), TakeTick, latency);
  }

  /**
   A client that was answered one second after its tick skips the next tick, and the one after that finds its entry
   expired at the deadline.
   */
  lemma SkipThenLate(s: State, latency: int)
    requires FirstSent(s) && Reachable(s, latency) && INTERVAL <= latency
    ensures exists tr: seq<State> :: |tr| > 0 && IsRun(tr) && AllOnTime(tr, latency) && Lapsed(tr)
  {
    NextTickReachable(s, latency);
    var s1 := AtNextTick(s);
    assert Skips(s1.now, s1.lastRequestAt);
    Extend(s1, Check, latency);
    var s2 := Step(s1, Check);
    NextTickReachable(s2, latency);
    var s3 := AtNextTick(s2);
    Extend(s3, Advance(s3.next), latency);
    var tr :| RunTo(tr, s3.(now := s3.next), latency);
    assert Lapsed(tr);
  }

  lemma LapsingRun(latency: int)
    requires INTERVAL <= latency
    ensures exists tr: seq<State> :: |tr| > 0 && IsRun(tr) && AllOnTime(tr, latency) && Lapsed(tr)
  {
    FirstSentReachable(latency);
    var s :| FirstSent(s) && Reachable(s, latency);
    SkipThenLate(s, latency);
  }

  // ---------- the client ----------

  /**
   A turn of the loop moves lastRequestAt as the machine's steps do: skipped, or sent and answered with 200 at `t`, or
   sent and failed, whether or not the server had written before the failure.
   */
  lemma TurnRefinesSteps(s: State, turn: Turn, written: bool, name: string, seen: int)
    requires s.pc.Checking? && turn.checkAt == s.now && (turn.answered ==> written)
    ensures var checked := Step(s, Check);
            if checked.pc.Parked? then checked.lastRequestAt == AfterTurn(s.lastRequestAt, turn)
            else
              var sent := if written then Step(checked, ServerWrites(name, seen)) else checked;
              var done := if turn.answered then Answered else Fails;
              CanStep(sent.(now := turn.answeredAt), done)
              && Step(sent.(now := turn.answeredAt), done).lastRequestAt == AfterTurn(s.lastRequestAt, turn)
  {
  }

  // ---------- the machine runs the loop ----------

  /** A request is only ever sent after a test that did not skip; all turns but the last went on. */
  ghost predicate LoopInv(s: State, first: int) {
    && s.lastRequestAt == AfterTurns(first, s.turns)
    && (s.pc.Sending? ==> !Skips(s.checkAt, s.lastRequestAt))
    && (!s.pc.Stopped? ==> forall t :: t in s.turns ==> !t.thenStop)
  }

  lemma {:induction false} AfterOneMore(first: int, turns: seq<Turn>, t: Turn)
    requires forall u :: u in turns ==> !u.thenStop
    ensures AfterTurns(first, turns + [t]) == AfterTurn(AfterTurns(first, turns), t)
    decreases |turns|
  {
    if turns == [] {
      assert (turns + [t])[0] == t && (turns + [t])[1..] == [];
      assert AfterTurns(AfterTurn(first, t), []) == AfterTurn(first, t);
    } else {
      assert (turns + [t])[0] == turns[0] && (turns + [t])[1..] == turns[1..] + [t];
      AfterOneMore(AfterTurn(first, turns[0]), turns[1..], t);
    }
  }

  lemma StopChangesNothing(first: int, turns: seq<Turn>)
    requires forall u :: u in turns ==> !u.thenStop
    ensures AfterTurns(first, StopSeen(turns)) == AfterTurns(first, turns)
  {
    if turns != [] {
      var n := |turns| - 1;
      assert turns == turns[..n] + [turns[n]];
      AfterOneMore(first, turns[..n], turns[n]);
      AfterOneMore(first, turns[..n], turns[n].(thenStop := true));
    }
  }

  lemma LoopStep(s: State, a: Action, first: int)
    requires CanStep(s, a) && LoopInv(s, first)
    ensures LoopInv(Step(s, a), first)
  {
    var s' := Step(s, a);
    if a.TakeStop? {
      StopChangesNothing(first, s.turns);
    } else if s'.turns != s.turns {
      AfterOneMore(first, s.turns, s'.turns[|s.turns|]);
    }
  }

  /** In every run lastRequestAt is what the turns of the loop so far have made of its first value. */
  lemma {:induction false} RunIsLoop(tr: seq<State>, i: nat)
    requires IsRun(tr) && i < |tr|
    ensures tr[i].lastRequestAt == AfterTurns(tr[0].lastRequestAt, tr[i].turns)
    ensures LoopInv(tr[i], tr[0].lastRequestAt)
  {
    if 0 < i {
      RunIsLoop(tr, i - 1);
      assert StepAt(tr, i - 1);
      var a :| CanStep(tr[i - 1], a) && tr[i] == Step(tr[i - 1], a);
      LoopStep(tr[i - 1], a, tr[0].lastRequestAt);
    }
  }

  class Client {
    var lastRequestAt: int
    var stopChNil: bool
    var stopChClosed: bool

    constructor ()
      ensures lastRequestAt == 0 && !stopChNil && !stopChClosed
    {
      lastRequestAt, stopChNil, stopChClosed := 0, false, false;
    }

    method MarkAsActive(now: int)
      modifies this`lastRequestAt
      ensures lastRequestAt == Unix(now)
      ensures lastRequestAt * SECOND <= now < (lastRequestAt + 1) * SECOND
    {
      lastRequestAt := now / SECOND;
    }

    method MaybeHeartbeat(t: Turn) returns (sent: bool)
      modifies this`lastRequestAt
      ensures sent <==> old(lastRequestAt) * SECOND + INTERVAL <= t.checkAt
      ensures lastRequestAt == AfterTurn(old(lastRequestAt), t)
      ensures sent && t.answered ==> lastRequestAt * SECOND <= t.answeredAt < (lastRequestAt + 1) * SECOND
      ensures !sent || !t.answered ==> lastRequestAt == old(lastRequestAt)
    {
      SkipsExactly(t.checkAt, lastRequestAt);
      UnixTruncates(t.answeredAt);
      if Unix(t.checkAt - INTERVAL) < lastRequestAt {
        return false;
      }
      if t.answered {
        MarkAsActive(t.answeredAt);
      }
      return true;
    }

    method HeartbeatLoop(turns: seq<Turn>)
      modifies this`lastRequestAt
      ensures lastRequestAt == AfterTurns(old(lastRequestAt), turns)
    {
      var i := 0;
      while i < |turns|
        invariant 0 <= i <= |turns|
        invariant AfterTurns(lastRequestAt, turns[i..]) == AfterTurns(old(lastRequestAt), turns)
      {
        var _ := MaybeHeartbeat(turns[i]);
        if turns[i].thenStop {
          return;
        }
        i := i + 1;
      }
    }

    /** Closes the stop channel once; later calls find it nil and do nothing. */
    method Close()
      requires !stopChNil ==> !stopChClosed
      modifies this`stopChNil, this`stopChClosed
      ensures stopChNil
      ensures stopChClosed == (old(stopChClosed) || !old(stopChNil))
    {
      if stopChNil {
        return;
      }
      stopChClosed := true;
      stopChNil := true;
    }
  }
}
