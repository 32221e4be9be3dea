/**
 User presence as a step machine: any number of event servers with distinct IDs, their hearts, the shared
 Redis store and the passage of time, under every interleaving.
 */
module Presence {
  import opened Common
  import opened Ids
  import opened Memstore
  import opened HeartTable
  import opened Hearts
  import opened HeartTiming
  import EventServer

  type GoId = EventServer.GoId

  datatype Server = Server(es: EventServer.Es, gos: map<GoId, Heart>)

  /** One committed heartbeat. */
  datatype Commit = Commit(server: string, user: ID, go: GoId, time: int)

  datatype State = State(prefix: string, now: int, servers: map<string, Server>, db: Db, hist: seq<Commit>)

  ghost predicate Init(s: State) {
    s.servers == map[] && s.db == map[] && s.hist == []
  }

  datatype Action =
    | NewServer(sid: string)
    | ServerStep(sid: string, call: EventServer.Action)
    | HeartStep(sid: string, g: GoId, beat: HeartTiming.Action)
    | OtherSet(collection: string, key: string, value: Payload, ttl: int)
    | Advance(t: int)

  /** Time does not run past a tick of a running heart. */
  ghost predicate AllPass(s: State, t: int) {
    s.now <= t && forall sid, g :: HasHeart(s, sid, g) ==> Passes(HeartOf(s, sid, g), s.now, t)
  }

  ghost predicate HasHeart(s: State, sid: string, g: GoId) {
    sid in s.servers && g in s.servers[sid].gos
  }

  function HeartOf(s: State, sid: string, g: GoId): Heart
    requires sid in s.servers && g in s.servers[sid].gos
  {
    s.servers[sid].gos[g]
  }

  ghost predicate CanStep(s: State, a: Action) {
    match a
    case NewServer(sid) => sid !in s.servers
    case ServerStep(sid, b) => sid in s.servers && EventServer.Enabled(s.servers[sid].es, b)
    case HeartStep(sid, g, b) =>
      sid in s.servers && g in s.servers[sid].gos && HeartTiming.Enabled(s.servers[sid].gos[g], s.now, b)
    case OtherSet(c, _, _, _) => SeparatorFree(c) && c != CONNECTIONS
    case Advance(t) => AllPass(s, t)
  }

  /** The goroutines after a step of their server: stop channels closed by it are marked, a launched heart is added. */
  function NewGos(gos: map<GoId, Heart>, es: EventServer.Es, es': EventServer.Es, now: int): map<GoId, Heart> {
    map g | g in es'.table.owner ::
      if g in gos then (if g in es'.table.closed && g !in es.table.closed then Marked(gos[g], now) else gos[g])
      else NewHeart(es'.table.owner[g], now)
  }

  function WithServer(s: State, sid: string, sv: Server): State {
    s.(servers := s.servers[sid := sv])
  }

  ghost function Step(s: State, a: Action): State
    requires CanStep(s, a)
  {
    match a
    case NewServer(sid) => WithServer(s, sid, Server(EventServer.NEW_SERVER, map[]))
    case ServerStep(sid, b) =>
      var sv := s.servers[sid];
      var es' := EventServer.Apply(sv.es, b);
      WithServer(s, sid, Server(es', NewGos(sv.gos, sv.es, es', s.now)))
    case HeartStep(sid, g, b) =>
      var sv := s.servers[sid];
      var h := sv.gos[g];
      var s' := WithServer(s, sid, sv.(gos := sv.gos[g := HeartTiming.Apply(h, s.now, b)]));
      if b.Commits? then
        s'.(db := Beat(s.db, s.prefix, h.user, sid, s.now), hist := s.hist + [Commit(sid, h.user, g, s.now)])
      else s'
    case OtherSet(c, k, v, ttl) => s.(db := SetWithTTL(s.db, s.prefix, c, k, v, s.now, ttl))
    case Advance(t) => s.(now := t)
  }

  /** One step, or none: runs may stutter, so that they compose with steps of other components. */
  ghost predicate Next(s: State, s': State) {
    s' == s || exists a :: CanStep(s, a) && s' == Step(s, a)
  }

  ghost predicate StepAt(tr: seq<State>, i: nat)
    requires i + 1 < |tr|
  {
    Next(tr[i], tr[i + 1])
  }

  ghost predicate IsRun(tr: seq<State>) {
    && |tr| > 0 && Init(tr[0])
    && (forall i: nat :: i + 1 < |tr| ==> StepAt(tr, i))
  }

  /** The last committed heartbeat of a user, by whichever server. */
  function LastCommit(hist: seq<Commit>, u: ID): (r: Option<Commit>)
    ensures r.Some? ==> r.value in hist && r.value.user == u
  {
    if hist == [] then None
    else if hist[|hist| - 1].user == u then Some(hist[|hist| - 1])
    else LastCommit(hist[..|hist| - 1], u)
  }

  // ---------- invariant ----------

  /** The goroutines of a server and its heart table describe the same hearts, all of connected users. */
  ghost predicate LinkInv(sv: Server) {
    && sv.gos.Keys == sv.es.table.owner.Keys
    && (forall g :: g in sv.gos ==> GoInv(sv, g))
  }

  ghost predicate GoInv(sv: Server, g: GoId)
    requires g in sv.gos
  {
    && g in sv.es.table.owner && sv.gos[g].user == sv.es.table.owner[g] && sv.gos[g].user in sv.es.conns
    && (sv.gos[g].stop.Some? <==> g in sv.es.table.closed)
  }

  ghost predicate CommitInv(s: State, c: Commit) {
    && c.time <= s.now && HasHeart(s, c.server, c.go)
    && var h := HeartOf(s, c.server, c.go);
       h.user == c.user && h.last.Some? && c.time <= h.last.value
  }

  /** The store's entry for a user is the one of the last commit. */
  ghost predicate EntryInv(s: State, u: ID) {
    Lookup(s.db, s.prefix, CONNECTIONS, String(u))
    == match LastCommit(s.hist, u)
       case None => None
       case Some(c) => Some(Entry(ConnectionJSON(c.server), c.time + HEARTBEAT_TTL))
  }

  /** What a heart last wrote is no newer than the user's last commit. */
  ghost predicate LastInv(s: State, h: Heart) {
    h.last.Some? ==>
      && h.last.value <= s.now
      && LastCommit(s.hist, h.user).Some? && h.last.value <= LastCommit(s.hist, h.user).value.time
  }

  ghost predicate ServersInv(s: State) {
    forall sid :: sid in s.servers ==> EventServer.EsInv(s.servers[sid].es)
  }

  ghost predicate LinksInv(s: State) {
    forall sid :: sid in s.servers ==> LinkInv(s.servers[sid])
  }

  ghost predicate HistoryInv(s: State) {
    && (forall c :: c in s.hist ==> CommitInv(s, c))
    && (forall u :: EntryInv(s, u))
    && (forall sid, g :: HasHeart(s, sid, g) ==> LastInv(s, HeartOf(s, sid, g)))
  }

  ghost predicate Inv(s: State) {
    ServersInv(s) && LinksInv(s) && HistoryInv(s)
  }

  /** Hearts are created for connected users only, keep their user, and closed channels stay closed. */
  lemma TableGrows(es: EventServer.Es, b: EventServer.Action)
    requires EventServer.Enabled(es, b)
    ensures var es' := EventServer.Apply(es, b);
            && es.conns.Keys <= es'.conns.Keys
            && es.table.owner.Keys <= es'.table.owner.Keys && es.table.closed <= es'.table.closed
            && (forall g :: g in es.table.owner ==> es'.table.owner[g] == es.table.owner[g])
  {
  }

  lemma NewHeartsAreConnected(es: EventServer.Es, b: EventServer.Action)
    requires EventServer.Enabled(es, b) && EventServer.ConnsInv(es) && TableInv(es.table)
    ensures var es' := EventServer.Apply(es, b);
            forall g :: g in es'.table.owner && g !in es.table.owner ==>
              es'.table.owner[g] in es.conns && g !in es'.table.closed
  {
  }

  lemma ServersStep(s: State, a: Action)
    requires CanStep(s, a) && ServersInv(s)
    ensures ServersInv(Step(s, a))
  {
    if a.ServerStep? {
      EventServer.StepKeepsInv(s.servers[a.sid].es, a.call);
    }
    if a.NewServer? {
      EventServer.NewServerInv();
    }
  }

  lemma LinkStep(sv: Server, b: EventServer.Action, now: int)
    requires LinkInv(sv) && EventServer.Enabled(sv.es, b) && EventServer.ConnsInv(sv.es) && TableInv(sv.es.table)
    ensures var es' := EventServer.Apply(sv.es, b); LinkInv(Server(es', NewGos(sv.gos, sv.es, es', now)))
  {
    TableGrows(sv.es, b);
    NewHeartsAreConnected(sv.es, b);
    var es' := EventServer.Apply(sv.es, b);
    var sv' := Server(es', NewGos(sv.gos, sv.es, es', now));
    forall g | g in sv'.gos ensures GoInv(sv', g) {
      if g in sv.gos { assert GoInv(sv, g); }
    }
  }

  lemma HeartLinkStep(sv: Server, g0: GoId, b: HeartTiming.Action, now: int)
    requires LinkInv(sv) && g0 in sv.gos && HeartTiming.Enabled(sv.gos[g0], now, b)
    ensures LinkInv(sv.(gos := sv.gos[g0 := HeartTiming.Apply(sv.gos[g0], now, b)]))
  {
    var sv' := sv.(gos := sv.gos[g0 := HeartTiming.Apply(sv.gos[g0], now, b)]);
    forall g | g in sv'.gos ensures GoInv(sv', g) { assert GoInv(sv, g); }
  }

  lemma LinksAfterCall(s: State, sid: string, b: EventServer.Action)
    requires CanStep(s, ServerStep(sid, b)) && LinksInv(s)
    requires EventServer.ConnsInv(s.servers[sid].es) && TableInv(s.servers[sid].es.table)
    ensures LinksInv(Step(s, ServerStep(sid, b)))
  {
    LinkStep(s.servers[sid], b, s.now);
  }

  lemma LinksAfterBeat(s: State, sid: string, g: GoId, b: HeartTiming.Action)
    requires CanStep(s, HeartStep(sid, g, b)) && LinksInv(s)
    ensures LinksInv(Step(s, HeartStep(sid, g, b)))
  {
    HeartLinkStep(s.servers[sid], g, b, s.now);
  }

  lemma LinksAfterOther(s: State, a: Action)
    requires CanStep(s, a) && LinksInv(s) && !a.ServerStep? && !a.HeartStep?
    ensures LinksInv(Step(s, a))
  {
  }

  lemma LinksStep(s: State, a: Action)
    requires CanStep(s, a) && LinksInv(s)
    requires a.ServerStep? ==> EventServer.ConnsInv(s.servers[a.sid].es) && TableInv(s.servers[a.sid].es.table)
    ensures LinksInv(Step(s, a))
  {
    match a
    case ServerStep(sid, b) => LinksAfterCall(s, sid, b);
    case HeartStep(sid, g, b) => LinksAfterBeat(s, sid, g, b);
    case _ => LinksAfterOther(s, a);
  }

  lemma ServerStepMovesHeart(sv: Server, b: EventServer.Action, g: GoId, now: int)
    requires EventServer.Enabled(sv.es, b) && LinkInv(sv) && g in sv.gos
    ensures var gos' := NewGos(sv.gos, sv.es, EventServer.Apply(sv.es, b), now);
            g in gos' && Move(sv.gos[g], now, gos'[g], now)
  {
    TableGrows(sv.es, b);
    assert GoInv(sv, g);
  }

  /** Every step of the machine is a move of every heart in it. */
  lemma StepMovesHeart(s: State, a: Action, sid: string, g: GoId)
    requires LinksInv(s) && CanStep(s, a) && HasHeart(s, sid, g)
    ensures HasHeart(Step(s, a), sid, g)
    ensures Move(HeartOf(s, sid, g), s.now, HeartOf(Step(s, a), sid, g), Step(s, a).now)
  {
    var h := HeartOf(s, sid, g);
    match a
    case ServerStep(x, b) =>
      if x == sid { ServerStepMovesHeart(s.servers[sid], b, g, s.now); } else { StaysPut(h, s.now); }
    case HeartStep(x, k, b) => if x == sid && k == g { MovesItself(h, s.now, b); } else { StaysPut(h, s.now); }
    case Advance(t) => assert Passes(h, s.now, t);
    case _ => StaysPut(h, s.now);
  }

  lemma StaysPut(h: Heart, now: int)
    ensures Move(h, now, h, now)
  {
  }

  lemma MovesItself(h: Heart, now: int, b: HeartTiming.Action)
    requires HeartTiming.Enabled(h, now, b)
    ensures Move(h, now, HeartTiming.Apply(h, now, b), now)
  {
  }

  lemma StepKeepsCommit(s: State, a: Action, c: Commit)
    requires LinksInv(s) && CanStep(s, a) && CommitInv(s, c)
    ensures CommitInv(Step(s, a), c)
  {
    StepMovesHeart(s, a, c.server, c.go);
    MoveKeepsHistory(HeartOf(s, c.server, c.go), s.now, HeartOf(Step(s, a), c.server, c.go), Step(s, a).now);
  }

  predicate CommitsNow(a: Action) {
    a.HeartStep? && a.beat.Commits?
  }

  /** A commit becomes its user's entry and disturbs no other user's. */
  lemma CommitKeepsEntry(s: State, c: Commit, s': State, u: ID)
    requires EntryInv(s, u) && c.time == s.now
    requires s'.prefix == s.prefix && s'.hist == s.hist + [c]
    requires s'.db == Beat(s.db, s.prefix, c.user, c.server, s.now)
    ensures EntryInv(s', u)
  {
    assert (s.hist + [c])[..|s.hist|] == s.hist;
    StoreRefinesCollections(s.db, s.prefix, CONNECTIONS, String(c.user), ConnectionJSON(c.server), s.now, HEARTBEAT_TTL,
                            CONNECTIONS, String(u));
    if String(u) == String(c.user) { StringInjective(u, c.user); }
  }

  /** What a commit does to the store and to the history. */
  lemma CommitWrites(s: State, a: Action)
    requires CanStep(s, a) && CommitsNow(a)
    ensures var c := Commit(a.sid, HeartOf(s, a.sid, a.g).user, a.g, s.now);
            && Step(s, a).prefix == s.prefix && Step(s, a).hist == s.hist + [c]
            && Step(s, a).db == Beat(s.db, s.prefix, c.user, c.server, s.now)
  {
  }

  lemma StepKeepsEntry(s: State, a: Action, u: ID)
    requires CanStep(s, a) && EntryInv(s, u)
    ensures EntryInv(Step(s, a), u)
  {
    if CommitsNow(a) {
      CommitWrites(s, a);
      CommitKeepsEntry(s, Commit(a.sid, HeartOf(s, a.sid, a.g).user, a.g, s.now), Step(s, a), u);
    } else {
      QuietKeepsEntry(s, a, u);
    }
  }

  lemma QuietKeepsEntry(s: State, a: Action, u: ID)
    requires CanStep(s, a) && EntryInv(s, u) && !CommitsNow(a)
    ensures EntryInv(Step(s, a), u)
  {
    if a.OtherSet? {
      StoreRefinesCollections(s.db, s.prefix, a.collection, a.key, a.value, s.now, a.ttl, CONNECTIONS, String(u));
    }
  }

  lemma StepBornHeart(s: State, a: Action, sid: string, g: GoId)
    requires LinksInv(s) && CanStep(s, a) && !HasHeart(s, sid, g) && HasHeart(Step(s, a), sid, g)
    ensures HeartOf(Step(s, a), sid, g) == NewHeart(HeartOf(Step(s, a), sid, g).user, Step(s, a).now)
  {
  }

  lemma LastOnlyByCommit(s: State, a: Action, sid: string, g: GoId)
    requires CanStep(s, a) && HasHeart(s, sid, g) && HasHeart(Step(s, a), sid, g) && LinksInv(s) && !CommitsNow(a)
    ensures HeartOf(Step(s, a), sid, g).last == HeartOf(s, sid, g).last
    ensures HeartOf(Step(s, a), sid, g).commits == HeartOf(s, sid, g).commits
    ensures HeartOf(Step(s, a), sid, g).user == HeartOf(s, sid, g).user
  {
    if a.ServerStep? && a.sid == sid {
      TableGrows(s.servers[sid].es, a.call);
    }
  }

  lemma HistoryOnlyByCommit(s: State, a: Action)
    requires CanStep(s, a) && !CommitsNow(a)
    ensures Step(s, a).hist == s.hist && s.now <= Step(s, a).now
  {
  }

  /** After a commit: the heart that wrote has the newest write, the others keep theirs. */
  lemma CommitKeepsLast(s: State, a: Action, sid: string, g: GoId)
    requires CanStep(s, a) && CommitsNow(a) && HasHeart(s, sid, g) && LastInv(s, HeartOf(s, sid, g))
    ensures LastInv(Step(s, a), HeartOf(Step(s, a), sid, g))
  {
    var c := Commit(a.sid, HeartOf(s, a.sid, a.g).user, a.g, s.now);
    assert (s.hist + [c])[..|s.hist|] == s.hist;
    if sid != a.sid || g != a.g {
      assert HeartOf(Step(s, a), sid, g) == HeartOf(s, sid, g);
    }
  }

  lemma StepKeepsLast(s: State, a: Action, sid: string, g: GoId)
    requires LinksInv(s) && CanStep(s, a) && HasHeart(Step(s, a), sid, g)
    requires HasHeart(s, sid, g) ==> LastInv(s, HeartOf(s, sid, g))
    ensures LastInv(Step(s, a), HeartOf(Step(s, a), sid, g))
  {
    if !HasHeart(s, sid, g) {
      StepBornHeart(s, a, sid, g);
    } else if CommitsNow(a) {
      CommitKeepsLast(s, a, sid, g);
    } else {
      LastOnlyByCommit(s, a, sid, g);
      HistoryOnlyByCommit(s, a);
    }
  }

  lemma NewCommit(s: State, a: Action)
    requires CanStep(s, a) && CommitsNow(a)
    ensures var s' := Step(s, a);
            var c := Commit(a.sid, HeartOf(s, a.sid, a.g).user, a.g, s.now);
            s'.hist == s.hist + [c] && CommitInv(s', c)
  {
  }

  lemma CommitsStep(s: State, a: Action)
    requires LinksInv(s) && CanStep(s, a) && forall c :: c in s.hist ==> CommitInv(s, c)
    ensures forall c :: c in Step(s, a).hist ==> CommitInv(Step(s, a), c)
  {
    if CommitsNow(a) { NewCommit(s, a); } else { HistoryOnlyByCommit(s, a); }
    forall c | c in s.hist ensures CommitInv(Step(s, a), c) { StepKeepsCommit(s, a, c); }
  }

  lemma HistoryStep(s: State, a: Action)
    requires LinksInv(s) && HistoryInv(s) && CanStep(s, a)
    ensures HistoryInv(Step(s, a))
  {
    var s' := Step(s, a);
    CommitsStep(s, a);
    forall u ensures EntryInv(s', u) { StepKeepsEntry(s, a, u); }
    forall sid, g | HasHeart(s', sid, g) ensures LastInv(s', HeartOf(s', sid, g)) { StepKeepsLast(s, a, sid, g); }
  }

  lemma NextKeepsInv(s: State, s': State)
    requires Inv(s) && Next(s, s')
    ensures Inv(s')
  {
    if a :| CanStep(s, a) && s' == Step(s, a) {
      ServersStep(s, a);
      if a.ServerStep? { assert EventServer.EsInv(s.servers[a.sid].es); }
      LinksStep(s, a);
      HistoryStep(s, a);
    }
  }

  lemma {:induction false} RunInv(tr: seq<State>, i: nat)
    requires IsRun(tr) && i < |tr|
    ensures Inv(tr[i])
  {
    if i == 0 {
      forall u ensures EntryInv(tr[0], u) {}
    } else {
      RunInv(tr, i - 1);
      assert StepAt(tr, i - 1);
      NextKeepsInv(tr[i - 1], tr[i]);
    }
  }

  /** The part of the invariant that speaks of the history. */
  lemma HistoryAt(tr: seq<State>, i: nat)
    requires IsRun(tr) && i < |tr|
    ensures HistoryInv(tr[i]) && LinksInv(tr[i])
  {
    RunInv(tr, i);
  }

  // ---------- routing ----------

  /**
   The resolver answers s exactly when the user's last committed heartbeat is by s and less than 20 seconds
   old; and every committed heartbeat was for a user who is a key of its server's connection table.
   */
  lemma RoutingSoundness(tr: seq<State>, i: nat, u: ID)
    requires IsRun(tr) && i < |tr|
    ensures forall sid: string :: ResolveServer(tr[i].db, tr[i].prefix, u, tr[i].now) == Ok(sid)
              <==> LastCommit(tr[i].hist, u).Some? && LastCommit(tr[i].hist, u).value.server == sid
                   && tr[i].now < LastCommit(tr[i].hist, u).value.time + HEARTBEAT_TTL
    ensures forall c :: c in tr[i].hist ==>
              c.time <= tr[i].now && c.server in tr[i].servers && c.user in tr[i].servers[c.server].es.conns
  {
    HistoryAt(tr, i);
    assert EntryInv(tr[i], u);
    forall c | c in tr[i].hist
      ensures c.time <= tr[i].now && c.server in tr[i].servers && c.user in tr[i].servers[c.server].es.conns
    {
      assert CommitInv(tr[i], c) && LinkInv(tr[i].servers[c.server]) && GoInv(tr[i].servers[c.server], c.go);
    }
  }

  // ---------- hearts in time ----------

  /** All commit deadlines of one heart are met in the run. */
  ghost predicate HeartCommitsOnTime(tr: seq<State>, sid: string, g: GoId, latency: int) {
    forall i :: 0 <= i < |tr| && HasHeart(tr[i], sid, g) ==> CommitsOnTime(HeartOf(tr[i], sid, g), tr[i].now, latency)
  }

  ghost predicate HeartReturnsOnTime(tr: seq<State>, sid: string, g: GoId, latency: int) {
    forall i :: 0 <= i < |tr| && HasHeart(tr[i], sid, g) ==> ReturnsOnTime(HeartOf(tr[i], sid, g), tr[i].now, latency)
  }

  /** Between two states of a run a heart is new or has moved. */
  lemma HeartAt(tr: seq<State>, i: nat, sid: string, g: GoId)
    requires IsRun(tr) && i + 1 < |tr| && (HasHeart(tr[i], sid, g) || HasHeart(tr[i + 1], sid, g))
    ensures HasHeart(tr[i + 1], sid, g)
    ensures if HasHeart(tr[i], sid, g)
            then Move(HeartOf(tr[i], sid, g), tr[i].now, HeartOf(tr[i + 1], sid, g), tr[i + 1].now)
            else HeartOf(tr[i + 1], sid, g) == NewHeart(HeartOf(tr[i + 1], sid, g).user, tr[i + 1].now)
  {
    HistoryAt(tr, i);
    assert StepAt(tr, i);
    if a :| CanStep(tr[i], a) && tr[i + 1] == Step(tr[i], a) {
      if HasHeart(tr[i], sid, g) {
        StepMovesHeart(tr[i], a, sid, g);
      } else {
        StepBornHeart(tr[i], a, sid, g);
      }
    } else {
      StaysPut(HeartOf(tr[i], sid, g), tr[i].now);
    }
  }

  lemma {:induction false} TimedOverRun(tr: seq<State>, i: nat, sid: string, g: GoId, latency: int)
    requires IsRun(tr) && i < |tr| && HasHeart(tr[i], sid, g)
    requires HeartCommitsOnTime(tr, sid, g, latency) && latency < HEARTBEAT_INTERVAL
    ensures TimedInv(HeartOf(tr[i], sid, g), tr[i].now)
  {
    if 0 < i {
      HeartAt(tr, i - 1, sid, g);
      if HasHeart(tr[i - 1], sid, g) {
        TimedOverRun(tr, i - 1, sid, g, latency);
        MoveKeepsTimed(HeartOf(tr[i - 1], sid, g), tr[i - 1].now, HeartOf(tr[i], sid, g), tr[i].now, latency);
      }
    }
  }

  /**
   While a heart runs and its writes commit within 9 seconds of their ticks, no tick is dropped and the user's
   entry is live at every instant from the first commit on, whatever the jitter and whoever else writes.
   */
  lemma PresenceContinuity(tr: seq<State>, i: nat, sid: string, g: GoId, latency: int)
    requires IsRun(tr) && i < |tr| && HasHeart(tr[i], sid, g)
    requires HeartCommitsOnTime(tr, sid, g, latency) && latency <= MAX_LATENCY
    requires HeartOf(tr[i], sid, g).last.Some? && !HeartOf(tr[i], sid, g).pc.Done?
    ensures HeartOf(tr[i], sid, g).dropped == 0
    ensures Live(tr[i].db, CollectionKey(tr[i].prefix, CONNECTIONS, String(HeartOf(tr[i], sid, g).user)), tr[i].now)
    ensures ResolveServer(tr[i].db, tr[i].prefix, HeartOf(tr[i], sid, g).user, tr[i].now).Ok?
  {
    var h := HeartOf(tr[i], sid, g);
    TimedOverRun(tr, i, sid, g, latency);
    TimedIsFresh(h, tr[i].now, latency);
    HistoryAt(tr, i);
    assert LastInv(tr[i], h) && EntryInv(tr[i], h.user);
  }

  lemma {:induction false} StoppedOverRun(tr: seq<State>, i: nat, sid: string, g: GoId, latency: int)
    requires IsRun(tr) && i < |tr| && HasHeart(tr[i], sid, g)
    requires HeartReturnsOnTime(tr, sid, g, latency) && 0 <= latency < HEARTBEAT_INTERVAL
    ensures PromptInv(HeartOf(tr[i], sid, g), tr[i].now, latency)
    ensures StoppedInv(HeartOf(tr[i], sid, g), tr[i].now, latency)
  {
    if 0 < i {
      HeartAt(tr, i - 1, sid, g);
      if HasHeart(tr[i - 1], sid, g) {
        StoppedOverRun(tr, i - 1, sid, g, latency);
        MoveKeepsPrompt(HeartOf(tr[i - 1], sid, g), tr[i - 1].now, HeartOf(tr[i], sid, g), tr[i].now, latency);
        MoveKeepsStopped(HeartOf(tr[i - 1], sid, g), tr[i - 1].now, HeartOf(tr[i], sid, g), tr[i].now, latency);
      }
    }
  }

  /**
   After the stop of a heart whose writes return within `latency` of their ticks, at most one more write commits,
   by stop + latency; if nobody else writes for the user after the stop, the entry is gone 20 seconds later.
   */
  lemma PresenceDecay(tr: seq<State>, i: nat, sid: string, g: GoId, latency: int)
    requires IsRun(tr) && i < |tr| && HasHeart(tr[i], sid, g) && HeartOf(tr[i], sid, g).stop.Some?
    requires HeartReturnsOnTime(tr, sid, g, latency) && 0 <= latency < HEARTBEAT_INTERVAL
    ensures var h := HeartOf(tr[i], sid, g);
            var m := h.stop.value;
            && h.commits <= m.commits + 1
            && (forall c :: c in tr[i].hist && c.server == sid && c.go == g ==> c.time <= m.time + latency)
            && ((forall c :: c in tr[i].hist && c.user == h.user && m.time < c.time ==> c.server == sid && c.go == g)
                && m.time + latency + HEARTBEAT_TTL <= tr[i].now
                ==> !Live(tr[i].db, CollectionKey(tr[i].prefix, CONNECTIONS, String(h.user)), tr[i].now))
  {
    var s, h := tr[i], HeartOf(tr[i], sid, g);
    StoppedOverRun(tr, i, sid, g, latency);
    HistoryAt(tr, i);
    assert EntryInv(s, h.user);
    forall c | c in s.hist && c.server == sid && c.go == g ensures c.time <= h.stop.value.time + latency {
      assert CommitInv(s, c);
    }
  }

  // ---------- counting commits ----------

  /** The commits of one heart in the history. */
  function CommitsBy(hist: seq<Commit>, sid: string, g: GoId): nat {
    if hist == [] then 0
    else
      var c := hist[|hist| - 1];
      CommitsBy(hist[..|hist| - 1], sid, g) + if c.server == sid && c.go == g then 1 else 0
  }

  /** The counter that the decay bound speaks of counts the history. */
  lemma {:induction false} CommitsAreCounted(tr: seq<State>, i: nat, sid: string, g: GoId)
    requires IsRun(tr) && i < |tr|
    ensures CommitsBy(tr[i].hist, sid, g) == if HasHeart(tr[i], sid, g) then HeartOf(tr[i], sid, g).commits else 0
  {
    if 0 < i {
      CommitsAreCounted(tr, i - 1, sid, g);
      HistoryAt(tr, i - 1);
      assert StepAt(tr, i - 1);
      NextCounts(tr[i - 1], tr[i], sid, g);
    }
  }

  lemma CountCommit(s: State, a: Action, sid: string, g: GoId)
    requires CanStep(s, a) && CommitsNow(a)
    requires CommitsBy(s.hist, sid, g) == if HasHeart(s, sid, g) then HeartOf(s, sid, g).commits else 0
    ensures var s' := Step(s, a);
            CommitsBy(s'.hist, sid, g) == if HasHeart(s', sid, g) then HeartOf(s', sid, g).commits else 0
  {
    var c := Commit(a.sid, HeartOf(s, a.sid, a.g).user, a.g, s.now);
    assert (s.hist + [c])[..|s.hist|] == s.hist;
    if HasHeart(s, sid, g) && (sid != a.sid || g != a.g) {
      assert HeartOf(Step(s, a), sid, g) == HeartOf(s, sid, g);
    }
  }

  lemma CountStep(s: State, a: Action, sid: string, g: GoId)
    requires LinksInv(s) && CanStep(s, a)
    requires CommitsBy(s.hist, sid, g) == if HasHeart(s, sid, g) then HeartOf(s, sid, g).commits else 0
    ensures var s' := Step(s, a);
            CommitsBy(s'.hist, sid, g) == if HasHeart(s', sid, g) then HeartOf(s', sid, g).commits else 0
  {
    if CommitsNow(a) {
      CountCommit(s, a, sid, g);
    } else {
      HistoryOnlyByCommit(s, a);
      if HasHeart(s, sid, g) {
        StepMovesHeart(s, a, sid, g);
        LastOnlyByCommit(s, a, sid, g);
      } else if HasHeart(Step(s, a), sid, g) {
        StepBornHeart(s, a, sid, g);
      }
    }
  }

  lemma NextCounts(s: State, s': State, sid: string, g: GoId)
    requires LinksInv(s) && Next(s, s')
    requires CommitsBy(s.hist, sid, g) == if HasHeart(s, sid, g) then HeartOf(s, sid, g).commits else 0
    ensures CommitsBy(s'.hist, sid, g) == if HasHeart(s', sid, g) then HeartOf(s', sid, g).commits else 0
  {
    if a :| CanStep(s, a) && s' == Step(s, a) {
      CountStep(s, a, sid, g);
    }
  }
}
