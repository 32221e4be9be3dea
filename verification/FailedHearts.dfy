/** What a failed write costs: the goroutine of the heart ends, but its entry stays in the table of its server. */
module FailedHearts {
  import opened Common
  import opened Ids
  import opened Memstore
  import opened Hearts
  import opened HeartTiming
  import opened Presence
  import EventServer

  predicate Resolvable(s: State, u: ID) {
    ResolveServer(s.db, s.prefix, u, s.now).Ok?
  }

  // ---------- what a heart keeps ----------

  /** A stop is never undone, and a heart that has ended writes no more. */
  ghost predicate HeartEvolves(h: Heart, h': Heart) {
    && h'.user == h.user && (h.stop.Some? ==> h'.stop.Some?) && (h.last.Some? ==> h'.last.Some?)
    && (h.pc.Done? ==> h'.pc.Done? && h'.last == h.last)
  }

  lemma MoveEvolves(h: Heart, now: int, h': Heart, now': int)
    requires Move(h, now, h', now')
    ensures HeartEvolves(h, h') && now <= now'
    ensures !h.pc.Done? && h'.pc.Done? && h'.stop.None? ==> h.pc.Setting?
  {
    if a :| now' == now && HeartTiming.Enabled(h, now, a) && h' == HeartTiming.Apply(h, now, a) {
      ApplyEvolves(h, now, a);
    }
  }

  lemma ApplyEvolves(h: Heart, now: int, a: HeartTiming.Action)
    requires HeartTiming.Enabled(h, now, a)
    ensures HeartEvolves(h, HeartTiming.Apply(h, now, a))
    ensures !h.pc.Done? && HeartTiming.Apply(h, now, a).pc.Done? && h.stop.None? ==> h.pc.Setting?
  {
  }

  lemma {:induction false} HeartOverRun(tr: seq<State>, i: nat, j: nat, sid: string, g: GoId)
    requires IsRun(tr) && i <= j < |tr| && HasHeart(tr[i], sid, g)
    ensures HasHeart(tr[j], sid, g) && HeartEvolves(HeartOf(tr[i], sid, g), HeartOf(tr[j], sid, g))
    ensures tr[i].now <= tr[j].now
    decreases j
  {
    if i < j {
      HeartOverRun(tr, i, j - 1, sid, g);
      HeartAt(tr, j - 1, sid, g);
      MoveEvolves(HeartOf(tr[j - 1], sid, g), tr[j - 1].now, HeartOf(tr[j], sid, g), tr[j].now);
    }
  }

  lemma NextHistory(s: State, s': State)
    requires Next(s, s')
    ensures s.hist <= s'.hist
  {
    if a :| CanStep(s, a) && s' == Step(s, a) {
      if CommitsNow(a) { CommitWrites(s, a); } else { HistoryOnlyByCommit(s, a); }
    }
  }

  lemma {:induction false} HistoryOverRun(tr: seq<State>, i: nat, j: nat)
    requires IsRun(tr) && i <= j < |tr|
    ensures tr[i].hist <= tr[j].hist
    decreases j
  {
    if i < j {
      HistoryOverRun(tr, i, j - 1);
      assert StepAt(tr, j - 1);
      NextHistory(tr[j - 1], tr[j]);
    }
  }

  // ---------- who writes for the user ----------

  /** No other heart has written for the user of this one after its own last write. */
  ghost predicate WritesLast(s: State, sid: string, g: GoId)
    requires HasHeart(s, sid, g)
  {
    var h := HeartOf(s, sid, g);
    forall c :: c in s.hist && c.user == h.user && !(c.server == sid && c.go == g) ==>
      h.last.Some? && c.time <= h.last.value
  }

  ghost predicate SoleWriter(s: State, sid: string, g: GoId)
    requires HasHeart(s, sid, g)
  {
    forall c :: c in s.hist && c.user == HeartOf(s, sid, g).user ==> c.server == sid && c.go == g
  }

  /** Then the user is resolvable exactly for 20 seconds after that write. */
  lemma ResolvableByLast(tr: seq<State>, i: nat, sid: string, g: GoId)
    requires IsRun(tr) && i < |tr| && HasHeart(tr[i], sid, g) && WritesLast(tr[i], sid, g)
    ensures var h := HeartOf(tr[i], sid, g);
            Resolvable(tr[i], h.user) <==> h.last.Some? && tr[i].now < h.last.value + HEARTBEAT_TTL
  {
    var s, h := tr[i], HeartOf(tr[i], sid, g);
    HistoryAt(tr, i);
    assert LastInv(s, h) && EntryInv(s, h.user);
    var c := LastCommit(s.hist, h.user);
    if c.Some? {
      assert CommitInv(s, c.value);
      assert h.last.Some? && c.value.time == h.last.value;
    }
  }

  // ---------- a dead heart ----------

  /**
   A heart that has ended without being stopped keeps its table entry in every later state: no call of its user
   can launch a new heart, every call that tries fails, and with no other writer the user, although connected, cannot
   be resolved from 20 seconds after the last write on.
   */
  lemma DeadHeartBlocksRelaunch(tr: seq<State>, i: nat, j: nat, sid: string, g: GoId)
    requires IsRun(tr) && i <= j < |tr| && HasHeart(tr[i], sid, g) && HeartOf(tr[i], sid, g).pc.Done?
    requires HasHeart(tr[j], sid, g) && HeartOf(tr[j], sid, g).stop.None?
    ensures sid in tr[j].servers && EventServer.ConnsInv(tr[j].servers[sid].es)
    ensures var h, es := HeartOf(tr[i], sid, g), tr[j].servers[sid].es;
            && h.user in es.conns && h.user in es.table.hearts && es.table.hearts[h.user] == g
            && (forall c, g' :: c in es.serves && es.serves[c].user == h.user
                  ==> !EventServer.Enabled(es, EventServer.LaunchSucceeds(c, g')))
            && (forall c :: c in es.serves && es.serves[c].user == h.user && es.serves[c].pc.Registered?
                  ==> EventServer.Enabled(es, EventServer.LaunchFails(c)))
            && (WritesLast(tr[j], sid, g) ==>
                  (Resolvable(tr[j], h.user) <==> h.last.Some? && tr[j].now < h.last.value + HEARTBEAT_TTL))
  {
    HeartOverRun(tr, i, j, sid, g);
    HeartInTable(tr, j, sid, g);
    if WritesLast(tr[j], sid, g) {
      ResolvableByLast(tr, j, sid, g);
    }
  }

  /** A heart that has not been stopped is the table entry of its user, who is connected. */
  lemma HeartInTable(tr: seq<State>, i: nat, sid: string, g: GoId)
    requires IsRun(tr) && i < |tr| && HasHeart(tr[i], sid, g) && HeartOf(tr[i], sid, g).stop.None?
    ensures var u, es := HeartOf(tr[i], sid, g).user, tr[i].servers[sid].es;
            EventServer.ConnsInv(es) && u in es.conns && u in es.table.hearts && es.table.hearts[u] == g
  {
    RunInv(tr, i);
    assert EventServer.EsInv(tr[i].servers[sid].es) && LinkInv(tr[i].servers[sid]) && GoInv(tr[i].servers[sid], g);
  }

  // ---------- exactly when a user stays resolvable ----------

  /** In step k the write of the heart fails and its goroutine ends. */
  ghost predicate FailsAt(tr: seq<State>, k: nat, sid: string, g: GoId)
    requires k + 1 < |tr|
  {
    && HasHeart(tr[k], sid, g) && HeartOf(tr[k], sid, g).pc.Setting?
    && HasHeart(tr[k + 1], sid, g) && HeartOf(tr[k + 1], sid, g).pc.Done?
  }

  ghost predicate FailedBy(tr: seq<State>, i: nat, sid: string, g: GoId)
    requires i < |tr|
  {
    exists k: nat :: k < i && FailsAt(tr, k, sid, g)
  }

  /** A heart that has not been stopped has ended exactly when one of its writes failed. */
  lemma {:induction false} EndedExactlyByFailure(tr: seq<State>, i: nat, sid: string, g: GoId)
    requires IsRun(tr) && i < |tr| && HasHeart(tr[i], sid, g) && HeartOf(tr[i], sid, g).stop.None?
    ensures HeartOf(tr[i], sid, g).pc.Done? <==> FailedBy(tr, i, sid, g)
  {
    if k: nat :| k < i && FailsAt(tr, k, sid, g) {
      HeartOverRun(tr, k + 1, i, sid, g);
    }
    if HeartOf(tr[i], sid, g).pc.Done? {
      DoneMeansFailed(tr, i, sid, g);
    }
  }

  lemma {:induction false} DoneMeansFailed(tr: seq<State>, i: nat, sid: string, g: GoId)
    requires IsRun(tr) && i < |tr| && HasHeart(tr[i], sid, g) && HeartOf(tr[i], sid, g).stop.None?
    requires HeartOf(tr[i], sid, g).pc.Done?
    ensures FailedBy(tr, i, sid, g)
  {
    HeartAt(tr, i - 1, sid, g);
    var h := HeartOf(tr[i - 1], sid, g);
    MoveEvolves(h, tr[i - 1].now, HeartOf(tr[i], sid, g), tr[i].now);
    if h.pc.Done? {
      DoneMeansFailed(tr, i - 1, sid, g);
    } else {
      assert FailsAt(tr, i - 1, sid, g);
    }
  }

  /**
   While its writes commit in time and nobody else writes, the user of a heart that has written and has not been
   stopped is resolvable exactly when no write of it has failed, or the last one that committed is under 20 seconds old.
   */
  lemma ResolvableExactly(tr: seq<State>, i: nat, sid: string, g: GoId, latency: int)
    requires IsRun(tr) && i < |tr| && HasHeart(tr[i], sid, g) && SoleWriter(tr[i], sid, g)
    requires HeartCommitsOnTime(tr, sid, g, latency) && latency <= MAX_LATENCY
    requires HeartOf(tr[i], sid, g).stop.None? && HeartOf(tr[i], sid, g).last.Some?
    ensures var h := HeartOf(tr[i], sid, g);
            Resolvable(tr[i], h.user) <==> (FailedBy(tr, i, sid, g) ==> tr[i].now < h.last.value + HEARTBEAT_TTL)
  {
    ResolvableByLast(tr, i, sid, g);
    EndedExactlyByFailure(tr, i, sid, g);
    if !FailedBy(tr, i, sid, g) {
      PresenceContinuity(tr, i, sid, g, latency);
    }
  }

  /**
   Over a whole stretch of a run: the user is resolvable in each of its states exactly when no write has failed by its
   end, or the failure is so recent that the entry has not expired by then.
   */
  lemma StaysResolvableExactly(tr: seq<State>, i: nat, n: nat, sid: string, g: GoId, latency: int)
    requires IsRun(tr) && i <= n < |tr| && HasHeart(tr[i], sid, g) && HeartOf(tr[i], sid, g).last.Some?
    requires HasHeart(tr[n], sid, g) && HeartOf(tr[n], sid, g).stop.None? && SoleWriter(tr[n], sid, g)
    requires HeartCommitsOnTime(tr, sid, g, latency) && latency <= MAX_LATENCY
    ensures HeartOf(tr[n], sid, g).last.Some?
    ensures (forall j :: i <= j <= n ==> Resolvable(tr[j], HeartOf(tr[i], sid, g).user))
            <==> (FailedBy(tr, n, sid, g) ==> tr[n].now < HeartOf(tr[n], sid, g).last.value + HEARTBEAT_TTL)
  {
    HeartOverRun(tr, i, n, sid, g);
    ResolvableExactly(tr, n, sid, g, latency);
    if FailedBy(tr, n, sid, g) ==> tr[n].now < HeartOf(tr[n], sid, g).last.value + HEARTBEAT_TTL {
      forall j | i <= j <= n ensures Resolvable(tr[j], HeartOf(tr[i], sid, g).user) {
        ResolvableBefore(tr, i, j, n, sid, g, latency);
      }
    }
  }

  lemma ResolvableBefore(tr: seq<State>, i: nat, j: nat, n: nat, sid: string, g: GoId, latency: int)
    requires IsRun(tr) && i <= j <= n < |tr| && HasHeart(tr[i], sid, g) && HeartOf(tr[i], sid, g).last.Some?
    requires HasHeart(tr[n], sid, g) && HeartOf(tr[n], sid, g).stop.None? && SoleWriter(tr[n], sid, g)
    requires HeartCommitsOnTime(tr, sid, g, latency) && latency <= MAX_LATENCY
    requires HeartOf(tr[n], sid, g).last.Some?
    requires FailedBy(tr, n, sid, g) ==> tr[n].now < HeartOf(tr[n], sid, g).last.value + HEARTBEAT_TTL
    ensures Resolvable(tr[j], HeartOf(tr[i], sid, g).user)
  {
    HeartOverRun(tr, i, j, sid, g);
    HeartOverRun(tr, j, n, sid, g);
    HistoryOverRun(tr, j, n);
    assert SoleWriter(tr[j], sid, g) by {
      forall c | c in tr[j].hist ensures c in tr[n].hist {}
    }
    ResolvableExactly(tr, j, sid, g, latency);
    if FailedBy(tr, j, sid, g) {
      EndedExactlyByFailure(tr, j, sid, g);
      var k: nat :| k < j && FailsAt(tr, k, sid, g);
      assert FailedBy(tr, n, sid, g);
    }
  }

  // ---------- such a state is reached ----------

  ghost predicate RunTo(tr: seq<State>, s: State) {
    IsRun(tr) && tr[|tr| - 1] == s
  }

  ghost predicate Reachable(s: State) {
    exists tr :: RunTo(tr, s)
  }

  lemma ExtendRun(tr: seq<State>, s: State, s': State)
    requires RunTo(tr, s) && Next(s, s')
    ensures RunTo(tr + [s'], s')
  {
    var tr' := tr + [s'];
    forall i: nat | i + 1 < |tr'| ensures StepAt(tr', i) {
      if i + 1 < |tr| { assert StepAt(tr, i); }
    }
  }

  lemma Extend(s: State, a: Presence.Action)
    requires Reachable(s) && CanStep(s, a)
    ensures Reachable(Step(s, a))
  {
    var tr :| RunTo(tr, s);
    assert Next(s, Step(s, a));
    ExtendRun(tr, s, Step(s, a));
  }

  /** One server with one heart. */
  function Solo(es: EventServer.Es, h: Heart, now: int, db: Db, hist: seq<Commit>): State {
    State("", now, map["s" := Server(es, map[0 := h])], db, hist)
  }

  function OneUser(u: ID): EventServer.Es {
    var es := EventServer.Apply(EventServer.NEW_SERVER, EventServer.Register(0, u));
    EventServer.Apply(es, EventServer.LaunchSucceeds(0, 0))
  }

  lemma LaunchedHeart(u: ID)
    ensures var es := EventServer.Apply(EventServer.NEW_SERVER, EventServer.Register(0, u));
            NewGos(map[], es, OneUser(u), 0) == map[0 := NewHeart(u, 0)]
  {
  }

  lemma OneUserReachable(u: ID)
    ensures Reachable(Solo(OneUser(u), NewHeart(u, 0), 0, map[], []))
  {
    var s := State("", 0, map[], map[], []);
    assert RunTo([s], s);
    Extend(s, NewServer("s"));
    var s1 := Step(s, NewServer("s"));
    RegisteredReachable(s1, u);
  }

  lemma RegisteredReachable(s: State, u: ID)
    requires Reachable(s) && s == State("", 0, map["s" := Server(EventServer.NEW_SERVER, map[])], map[], [])
    ensures Reachable(Solo(OneUser(u), NewHeart(u, 0), 0, map[], []))
  {
    var register, launch := EventServer.Register(0, u), EventServer.LaunchSucceeds(0, 0);
    Extend(s, ServerStep("s", register));
    var es := EventServer.Apply(EventServer.NEW_SERVER, register);
    var s' := Step(s, ServerStep("s", register));
    assert NewGos(map[], EventServer.NEW_SERVER, es, 0) == map[];
    assert s'.servers["s"] == Server(es, map[]);
    Extend(s', ServerStep("s", launch));
    LaunchedHeart(u);
    assert Step(s', ServerStep("s", launch)).servers == map["s" := Server(OneUser(u), map[0 := NewHeart(u, 0)])];
  }

  lemma BeatReachable(es: EventServer.Es, h: Heart, now: int, b: HeartTiming.Action, db: Db, hist: seq<Commit>)
    requires Reachable(Solo(es, h, now, db, hist)) && HeartTiming.Enabled(h, now, b)
    ensures var h' := HeartTiming.Apply(h, now, b);
            if b.Commits?
            then Reachable(Solo(es, h', now, Beat(db, "", h.user, "s", now), hist + [Commit("s", h.user, 0, now)]))
            else Reachable(Solo(es, h', now, db, hist))
  {
    var s, a, h' := Solo(es, h, now, db, hist), HeartStep("s", 0, b), HeartTiming.Apply(h, now, b);
    Extend(s, a);
    assert map[0 := h][0 := h'] == map[0 := h'];
    assert Step(s, a).servers["s"] == Server(es, map[0 := h']);
    assert Step(s, a).servers == map["s" := Server(es, map[0 := h'])];
  }

  lemma TimeReachable(es: EventServer.Es, h: Heart, now: int, t: int, db: Db, hist: seq<Commit>)
    requires Reachable(Solo(es, h, now, db, hist)) && now <= t && Passes(h, now, t)
    ensures Reachable(Solo(es, h, t, db, hist))
  {
    Extend(Solo(es, h, now, db, hist), Advance(t));
  }

  /** A heart has ended without a stop, its call still waits, and the user, once written, cannot be resolved. */
  ghost predicate Dark(s: State, sid: string, g: GoId, c: EventServer.ConnId) {
    && HasHeart(s, sid, g) && c in s.servers[sid].es.serves
    && var h, call := HeartOf(s, sid, g), s.servers[sid].es.serves[c];
       && h.pc.Done? && h.stop.None? && h.last.Some?
       && call.pc.Waiting? && call.user == h.user && h.user in s.servers[sid].es.conns && !Resolvable(s, h.user)
  }

  /** The heart after its first write at time 0, which returned at once. */
  function Beaten(u: ID): Heart {
    var h := HeartTiming.Apply(NewHeart(u, 0), 0, Starts(0));
    HeartTiming.Apply(HeartTiming.Apply(h, 0, Commits), 0, Returns)
  }

  lemma BeatenReachable(u: ID)
    ensures Reachable(Solo(OneUser(u), Beaten(u), 0, Beat(map[], "", u, "s", 0), [] + [Commit("s", u, 0, 0)]))
  {
    var es, h := OneUser(u), NewHeart(u, 0);
    OneUserReachable(u);
    BeatReachable(es, h, 0, Starts(0), map[], []);
    h := HeartTiming.Apply(h, 0, Starts(0));
    BeatReachable(es, h, 0, Commits, map[], []);
    h := HeartTiming.Apply(h, 0, Commits);
    BeatReachable(es, h, 0, Returns, Beat(map[], "", u, "s", 0), [] + [Commit("s", u, 0, 0)]);
  }

  /** A failed second write: 20 seconds after the first one the user is connected and out of reach. */
  lemma DarkReachable(u: ID)
    ensures exists s, sid, g, c :: Reachable(s) && Dark(s, sid, g, c)
  {
    var es, h, t := OneUser(u), Beaten(u), HEARTBEAT_INTERVAL;
    var db, hist := Beat(map[], "", u, "s", 0), [] + [Commit("s", u, 0, 0)];
    BeatenReachable(u);
    TimeReachable(es, h, 0, t, db, hist);
    BeatReachable(es, h, t, Ticks, db, hist);
    h := HeartTiming.Apply(h, t, Ticks);
    BeatReachable(es, h, t, TakesTick, db, hist);
    h := HeartTiming.Apply(h, t, TakesTick);
    BeatReachable(es, h, t, Fails, db, hist);
    h := HeartTiming.Apply(h, t, Fails);
    TimeReachable(es, h, t, HEARTBEAT_TTL, db, hist);
    DarkAt(es, h, u, db, hist);
  }

  lemma DarkAt(es: EventServer.Es, h: Heart, u: ID, db: Db, hist: seq<Commit>)
    requires es == OneUser(u) && h.user == u && h.pc.Done? && h.stop.None? && h.last.Some?
    requires db == Beat(map[], "", u, "s", 0)
    ensures Dark(Solo(es, h, HEARTBEAT_TTL, db, hist), "s", 0, 0)
  {
  }

  // ---------- a heart that is stopped ----------

  predicate Stops(call: EventServer.Action, u: ID) {
    call == EventServer.StopUser(u) || call == EventServer.StopAllHearts
  }

  /** The call closes the stop channel of the only heart. */
  lemma StopMarks(u: ID, call: EventServer.Action)
    requires Stops(call, u)
    ensures EventServer.Enabled(OneUser(u), call)
    ensures var es := EventServer.Apply(OneUser(u), call);
            es.table.hearts == map[] && NewGos(map[0 := Beaten(u)], OneUser(u), es, 0) == map[0 := Marked(Beaten(u), 0)]
  {
    var es := EventServer.Apply(OneUser(u), call);
    assert 0 in OneUser(u).table.hearts.Values by { assert OneUser(u).table.hearts[u] == 0; }
    assert es.table.closed == {0};
  }

  /** The heart has been stopped and has ended, its user has no table entry any more and cannot be resolved. */
  ghost predicate Stopped(s: State, sid: string, g: GoId) {
    && HasHeart(s, sid, g)
    && var h := HeartOf(s, sid, g);
       && h.pc.Done? && h.stop.Some? && h.last.Some? && h.user !in s.servers[sid].es.table.hearts
       && !Resolvable(s, h.user)
  }

  /** A step of the only server that leaves its heart as `h'`. */
  lemma CallReachable(es: EventServer.Es, h: Heart, now: int, call: EventServer.Action, h': Heart, db: Db,
                      hist: seq<Commit>)
    requires Reachable(Solo(es, h, now, db, hist)) && EventServer.Enabled(es, call)
    requires NewGos(map[0 := h], es, EventServer.Apply(es, call), now) == map[0 := h']
    ensures Reachable(Solo(EventServer.Apply(es, call), h', now, db, hist))
  {
    var s, a := Solo(es, h, now, db, hist), ServerStep("s", call);
    Extend(s, a);
    var sv := Server(EventServer.Apply(es, call), map[0 := h']);
    assert Step(s, a).servers["s"] == sv;
    assert Step(s, a).servers == map["s" := sv];
  }

  /** Either way of stopping a heart that has written ends it, and its entry decays. */
  lemma StoppedReachable(u: ID, call: EventServer.Action)
    requires Stops(call, u)
    ensures exists s, sid, g :: Reachable(s) && Stopped(s, sid, g)
  {
    var db, hist := Beat(map[], "", u, "s", 0), [] + [Commit("s", u, 0, 0)];
    BeatenReachable(u);
    StopMarks(u, call);
    var es, h := EventServer.Apply(OneUser(u), call), Marked(Beaten(u), 0);
    CallReachable(OneUser(u), Beaten(u), 0, call, h, db, hist);
    EndsAndDecays(es, h, u, db, hist);
  }

  lemma EndsAndDecays(es: EventServer.Es, h: Heart, u: ID, db: Db, hist: seq<Commit>)
    requires Reachable(Solo(es, h, 0, db, hist)) && h.pc.Waiting? && h.stop.Some? && h.last.Some? && h.user == u
    requires u !in es.table.hearts && db == Beat(map[], "", u, "s", 0)
    ensures exists s, sid, g :: Reachable(s) && Stopped(s, sid, g)
  {
    BeatReachable(es, h, 0, TakesStop, db, hist);
    var h' := HeartTiming.Apply(h, 0, TakesStop);
    TimeReachable(es, h', 0, HEARTBEAT_TTL, db, hist);
    StoppedAt(es, h', u, db, hist);
  }

  lemma StoppedAt(es: EventServer.Es, h: Heart, u: ID, db: Db, hist: seq<Commit>)
    requires u !in es.table.hearts && h.user == u && h.pc.Done? && h.stop.Some? && h.last.Some?
    requires db == Beat(map[], "", u, "s", 0)
    ensures Stopped(Solo(es, h, HEARTBEAT_TTL, db, hist), "s", 0)
  {
  }
}
