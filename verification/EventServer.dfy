/**
 One event server: the connection table behind its lock, the calls of ServeConnection that wait in it,
 the heart table, and the goroutines of InitiateShutdown.
 */
module EventServer {
  import opened Common
  import opened Ids
  import opened HeartTable

  type ConnId = nat

  type GoId = nat

  datatype ServePc = Registered | Waiting | Returned | Failed

  /** One call of ServeConnection; `closes` counts the closes of its waitCh. */
  datatype Serve = Serve(user: ID, pc: ServePc, closes: nat)

  datatype Registration = Registration(user: ID, conn: ConnId)

  /** One SendEvent: its recipient, how many registrations preceded its lookup, and the connection it found. */
  datatype Sent = Sent(user: ID, at: nat, target: Option<ConnId>)

  datatype MainPc = Spawning | Collecting | Done(ctxDone: bool)

  /**
   A shutdown in progress: the table at lock time, and its goroutines by where they are. `buffer` is the length of
   errCh.
   */
  datatype Shutdown =
    | NotStarted
    | Down(
        snapshot: map<ID, ConnId>,
        unspawned: set<ID>,
        toSend: set<ID>,
        toClose: set<ID>,
        finished: set<ID>,
        buffer: nat,
        collected: nat,
        main: MainPc)

  datatype Es = Es(
    conns: map<ID, ConnId>,
    serves: map<ConnId, Serve>,
    table: Table<GoId>,
    shutdown: Shutdown,
    regs: seq<Registration>,
    sends: seq<Sent>)

  const NEW_SERVER: Es := Es(map[], map[], Table(map[], map[], {}), NotStarted, [], [])

  datatype Action =
    | Register(c: ConnId, u: ID)
    | LaunchSucceeds(c: ConnId, g: GoId)
    | LaunchFails(c: ConnId)
    | Wake(c: ConnId)
    | StopUser(u: ID)
    | StopAllHearts
    | SendEvent(u: ID)
    | ShutdownBegins
    | Spawn(u: ID)
    | SpawnLoopEnds
    | CloserSends(u: ID)
    | CloserCloses(u: ID)
    | Collect
    | CollectorEnds
    | ContextDone

  /** The server's mutex is held from the start of InitiateShutdown until it returns. */
  predicate Locked(s: Es) {
    s.shutdown.Down? && !s.shutdown.main.Done?
  }

  predicate Enabled(s: Es, a: Action) {
    match a
    case Register(c, _) => !Locked(s) && c !in s.serves
    case LaunchSucceeds(c, g) =>
      c in s.serves && s.serves[c].pc.Registered? && s.serves[c].user !in s.table.hearts && g !in s.table.owner
    case LaunchFails(c) => c in s.serves && s.serves[c].pc.Registered? && s.serves[c].user in s.table.hearts
    case Wake(c) => c in s.serves && s.serves[c].pc.Waiting? && 0 < s.serves[c].closes
    case StopUser(u) => u in s.table.hearts
    case StopAllHearts => true
    case SendEvent(_) => !Locked(s)
    case ShutdownBegins => s.shutdown.NotStarted?
    case CloserCloses(u) =>
      DownEnabled(s.shutdown, |s.conns|, a) && u in s.shutdown.snapshot && s.shutdown.snapshot[u] in s.serves
    case _ => DownEnabled(s.shutdown, |s.conns|, a)
  }

  predicate InShutdown(a: Action) {
    || a.Spawn? || a.SpawnLoopEnds? || a.CloserSends? || a.CloserCloses?
    || a.Collect? || a.CollectorEnds? || a.ContextDone?
  }

  /**
   The steps of a running shutdown, on its own state. A send on errCh blocks while its buffer, one slot per connection
   at lock time, is full; the collector counts up to the current number of connections.
   */
  predicate DownEnabled(d: Shutdown, connections: nat, a: Action) {
    d.Down? &&
    match a
    case Spawn(u) => d.main.Spawning? && u in d.unspawned
    case SpawnLoopEnds => d.main.Spawning? && d.unspawned == {}
    case CloserSends(u) => u in d.toSend && d.buffer < |d.snapshot|
    case CloserCloses(u) => u in d.toClose
    case Collect => d.main.Collecting? && d.collected < connections && 0 < d.buffer
    case CollectorEnds => d.main.Collecting? && connections <= d.collected
    case ContextDone => d.main.Collecting? && d.collected < connections
    case _ => false
  }

  function DownStep(d: Shutdown, connections: nat, a: Action): Shutdown
    requires DownEnabled(d, connections, a)
  {
    match a
    case Spawn(u) => d.(unspawned := d.unspawned - {u}, toSend := d.toSend + {u})
    case SpawnLoopEnds => d.(main := Collecting)
    case CloserSends(u) => d.(toSend := d.toSend - {u}, toClose := d.toClose + {u}, buffer := d.buffer + 1)
    case CloserCloses(u) => d.(toClose := d.toClose - {u}, finished := d.finished + {u})
    case Collect => d.(buffer := d.buffer - 1, collected := d.collected + 1)
    case CollectorEnds => d.(main := Done(false))
    case ContextDone => d.(main := Done(true))
  }

  function WithPc(s: Es, c: ConnId, pc: ServePc): Es
    requires c in s.serves
  {
    s.(serves := s.serves[c := s.serves[c].(pc := pc)])
  }

  function Apply(s: Es, a: Action): Es
    requires Enabled(s, a)
  {
    var d := s.shutdown;
    match a
    case Register(c, u) =>
      s.(conns := s.conns[u := c],
         serves := s.serves[c := Serve(u, Registered, 0)],
         regs := s.regs + [Registration(u, c)])
    case LaunchSucceeds(c, g) => WithPc(s, c, Waiting).(table := Launch(s.table, s.serves[c].user, g))
    case LaunchFails(c) => WithPc(s, c, Failed)
    case Wake(c) => WithPc(s, c, Returned)
    case StopUser(u) => s.(table := Stop(s.table, u))
    case StopAllHearts => s.(table := StopAll(s.table))
    case SendEvent(u) => s.(sends := s.sends + [Sent(u, |s.regs|, if u in s.conns then Some(s.conns[u]) else None)])
    case ShutdownBegins => s.(shutdown := Down(s.conns, s.conns.Keys, {}, {}, {}, 0, 0, Spawning))
    case CloserCloses(u) =>
      var c := d.snapshot[u];
      s.(shutdown := DownStep(d, |s.conns|, a), serves := s.serves[c := s.serves[c].(closes := s.serves[c].closes + 1)])
    case _ => s.(shutdown := DownStep(d, |s.conns|, a))
  }

  ghost predicate Next(s: Es, s': Es) {
    exists a :: Enabled(s, a) && s' == Apply(s, a)
  }

  /** The connection of the last registration of a user. */
  function LatestReg(regs: seq<Registration>, u: ID): Option<ConnId> {
    if regs == [] then None
    else if regs[|regs| - 1].user == u then Some(regs[|regs| - 1].conn)
    else LatestReg(regs[..|regs| - 1], u)
  }

  // ---------- invariant ----------

  ghost predicate ConnsInv(s: Es) {
    && (forall u :: u in s.conns ==> s.conns[u] in s.serves && s.serves[s.conns[u]].user == u)
    && (forall c :: c in s.serves ==> s.serves[c].user in s.conns)
    && (forall u :: u in s.table.hearts ==> u in s.conns)
  }

  ghost predicate RegsInv(s: Es) {
    && (forall u :: LatestReg(s.regs, u) == if u in s.conns then Some(s.conns[u]) else None)
    && (forall i :: 0 <= i < |s.sends| ==> SentInv(s.regs, s.sends[i]))
  }

  ghost predicate SentInv(regs: seq<Registration>, r: Sent) {
    r.at <= |regs| && r.target == LatestReg(regs[..r.at], r.user)
  }

  function Places(d: Shutdown, u: ID): nat
    requires d.Down?
  {
    (if u in d.unspawned then 1 else 0) + (if u in d.toSend then 1 else 0)
    + (if u in d.toClose then 1 else 0) + (if u in d.finished then 1 else 0)
  }

  /** Every connection of the snapshot has exactly one goroutine, and every goroutine is in exactly one place. */
  ghost predicate Partition(d: Shutdown)
    requires d.Down?
  {
    forall u :: Places(d, u) == if u in d.snapshot then 1 else 0
  }

  ghost predicate ClosersInv(d: Shutdown) {
    d.Down? ==>
      && Partition(d)
      && d.buffer + d.collected == |d.toClose| + |d.finished|
      && (d.main.Spawning? ==> d.collected == 0)
      && (!d.main.Spawning? ==> d.unspawned == {})
  }

  ghost predicate Closed(d: Shutdown, c: ConnId, u: ID) {
    d.Down? && u in d.finished && u in d.snapshot && d.snapshot[u] == c
  }

  ghost predicate SnapshotInv(s: Es, u: ID) {
    s.shutdown.Down? && u in s.shutdown.snapshot ==>
      s.shutdown.snapshot[u] in s.serves && s.serves[s.shutdown.snapshot[u]].user == u
  }

  ghost predicate ServeInv(s: Es, c: ConnId)
    requires c in s.serves
  {
    && s.serves[c].closes == (if Closed(s.shutdown, c, s.serves[c].user) then 1 else 0)
    && (s.serves[c].pc.Returned? ==> 0 < s.serves[c].closes)
  }

  ghost predicate ClosesInv(s: Es) {
    && (forall u :: SnapshotInv(s, u))
    && (forall c :: c in s.serves ==> ServeInv(s, c))
  }

  /** While the lock is held the table does not change. */
  ghost predicate LockInv(s: Es) {
    Locked(s) ==> s.conns == s.shutdown.snapshot
  }

  /**
   The collector has ended with the context's error exactly when it had not received a message of every connection.
   */
  ghost predicate CollectorInv(d: Shutdown) {
    d.Down? && d.main.Done? ==> (d.main.ctxDone <==> d.collected < |d.snapshot|)
  }

  ghost predicate EsInv(s: Es) {
    && LockInv(s) && CollectorInv(s.shutdown) && TableInv(s.table) && ConnsInv(s) && RegsInv(s)
    && ClosersInv(s.shutdown) && ClosesInv(s)
  }

  lemma RegsStep(s: Es, a: Action)
    requires Enabled(s, a) && RegsInv(s)
    ensures RegsInv(Apply(s, a))
  {
    var s' := Apply(s, a);
    if a.Register? {
      assert s'.regs[..|s.regs|] == s.regs;
      forall i | 0 <= i < |s'.sends| ensures SentInv(s'.regs, s'.sends[i]) {
        assert SentInv(s.regs, s.sends[i]);
        assert s'.regs[..s.sends[i].at] == s.regs[..s.sends[i].at];
      }
    } else if a.SendEvent? {
      assert s.regs[..|s.regs|] == s.regs;
    }
  }

  lemma PartitionStep(d: Shutdown, n: nat, a: Action)
    requires DownEnabled(d, n, a) && Partition(d)
    ensures Partition(DownStep(d, n, a))
  {
    var d' := DownStep(d, n, a);
    forall u ensures Places(d', u) == if u in d'.snapshot then 1 else 0 {
      assert Places(d, u) == if u in d.snapshot then 1 else 0;
    }
  }

  lemma MoveOne<T>(from: set<T>, to: set<T>, x: T)
    requires x in from && x !in to
    ensures |from - {x}| == |from| - 1 && |to + {x}| == |to| + 1
  {
  }

  lemma DownKeepsInv(d: Shutdown, n: nat, a: Action)
    requires DownEnabled(d, n, a) && ClosersInv(d)
    ensures ClosersInv(DownStep(d, n, a))
  {
    PartitionStep(d, n, a);
    if a.CloserSends? || a.CloserCloses? {
      assert Places(d, a.u) <= 1;
      if a.CloserSends? { MoveOne(d.toSend, d.toClose, a.u); } else { MoveOne(d.toClose, d.finished, a.u); }
    }
  }

  lemma ClosersStep(s: Es, a: Action)
    requires Enabled(s, a) && ClosersInv(s.shutdown) && LockInv(s)
    ensures ClosersInv(Apply(s, a).shutdown)
  {
    if InShutdown(a) {
      DownKeepsInv(s.shutdown, |s.conns|, a);
    }
  }

  lemma ConnsStep(s: Es, a: Action)
    requires Enabled(s, a) && ConnsInv(s)
    ensures ConnsInv(Apply(s, a))
  {
  }

  /** A close by a goroutine is the first on its channel. */
  lemma CloseStep(s: Es, u: ID)
    requires Enabled(s, CloserCloses(u)) && Partition(s.shutdown) && ClosesInv(s)
    ensures ClosesInv(Apply(s, CloserCloses(u)))
  {
    var s', c0 := Apply(s, CloserCloses(u)), s.shutdown.snapshot[u];
    assert SnapshotInv(s, u) && Places(s.shutdown, u) <= 1;
    forall c | c in s'.serves ensures ServeInv(s', c) {
      assert ServeInv(s, c);
    }
    forall v ensures SnapshotInv(s', v) { assert SnapshotInv(s, v); }
  }

  lemma RegisterStep(s: Es, c0: ConnId, u: ID)
    requires Enabled(s, Register(c0, u)) && ClosesInv(s)
    ensures ClosesInv(Apply(s, Register(c0, u)))
  {
    var s' := Apply(s, Register(c0, u));
    assert SnapshotInv(s, u);
    forall c | c in s'.serves ensures ServeInv(s', c) {
      if c != c0 { assert ServeInv(s, c); }
    }
    forall v ensures SnapshotInv(s', v) { assert SnapshotInv(s, v); }
  }

  lemma ClosesStep(s: Es, a: Action)
    requires Enabled(s, a) && ConnsInv(s) && ClosersInv(s.shutdown) && ClosesInv(s)
    ensures ClosesInv(Apply(s, a))
  {
    if a.CloserCloses? {
      CloseStep(s, a.u);
    } else if a.Register? {
      RegisterStep(s, a.c, a.u);
    } else {
      QuietStep(s, a);
    }
  }

  /** No other step closes a channel or adds a call. */
  lemma QuietStep(s: Es, a: Action)
    requires Enabled(s, a) && ConnsInv(s) && ClosesInv(s) && !a.CloserCloses? && !a.Register?
    ensures ClosesInv(Apply(s, a))
  {
    var s' := Apply(s, a);
    forall c | c in s'.serves ensures ServeInv(s', c) {
      assert ServeInv(s, c);
      assert s'.serves[c].closes == s.serves[c].closes && s'.serves[c].user == s.serves[c].user;
    }
    forall v ensures SnapshotInv(s', v) { assert SnapshotInv(s, v); }
  }

  lemma LockStep(s: Es, a: Action)
    requires Enabled(s, a) && LockInv(s)
    ensures LockInv(Apply(s, a))
  {
  }

  lemma CollectorStep(s: Es, a: Action)
    requires Enabled(s, a) && LockInv(s) && CollectorInv(s.shutdown)
    ensures CollectorInv(Apply(s, a).shutdown)
  {
  }

  lemma TableStep(s: Es, a: Action)
    requires Enabled(s, a) && TableInv(s.table)
    ensures TableInv(Apply(s, a).table)
  {
    match a
    case LaunchSucceeds(c, g) => LaunchKeepsInv(s.table, s.serves[c].user, g);
    case StopUser(u) => StopKeepsInv(s.table, u);
    case StopAllHearts => StopAllKeepsInv(s.table);
    case _ =>
  }

  lemma StepKeepsInv(s: Es, a: Action)
    requires EsInv(s) && Enabled(s, a)
    ensures EsInv(Apply(s, a))
  {
    LockStep(s, a);
    CollectorStep(s, a);
    TableStep(s, a);
    RegsStep(s, a);
    ClosersStep(s, a);
    ConnsStep(s, a);
    ClosesStep(s, a);
  }

  ghost predicate StepAt(tr: seq<Es>, i: nat)
    requires i + 1 < |tr|
  {
    Next(tr[i], tr[i + 1])
  }

  ghost predicate IsRun(tr: seq<Es>) {
    && |tr| > 0 && tr[0] == NEW_SERVER
    && (forall i: nat :: i + 1 < |tr| ==> StepAt(tr, i))
  }

  lemma NewServerInv()
    ensures EsInv(NEW_SERVER)
  {
  }

  lemma NextKeepsInv(s: Es, s': Es)
    requires EsInv(s) && Next(s, s')
    ensures EsInv(s')
  {
    var a :| Enabled(s, a) && s' == Apply(s, a);
    StepKeepsInv(s, a);
  }

  lemma {:induction false} RunInv(tr: seq<Es>, i: nat)
    requires IsRun(tr) && i < |tr|
    ensures EsInv(tr[i])
  {
    if 0 < i {
      RunInv(tr, i - 1);
      assert StepAt(tr, i - 1);
      NextKeepsInv(tr[i - 1], tr[i]);
    }
  }

  // ---------- what only moves forward ----------

  ghost predicate ServeEvolves(s: Es, s': Es, c: ConnId)
    requires c in s.serves
  {
    && c in s'.serves && s'.serves[c].user == s.serves[c].user && s.serves[c].closes <= s'.serves[c].closes
    && (s.serves[c].user in s.conns && s.conns[s.serves[c].user] != c ==>
          s.serves[c].user in s'.conns && s'.conns[s.serves[c].user] != c)
    && (s.serves[c].pc.Waiting? || s.serves[c].pc.Returned? ==> s'.serves[c].pc.Waiting? || s'.serves[c].pc.Returned?)
  }

  ghost predicate Evolves(s: Es, s': Es) {
    && s.conns.Keys <= s'.conns.Keys
    && (forall c :: c in s.serves ==> ServeEvolves(s, s', c))
    && (s.shutdown.Down? ==> s'.shutdown.Down? && s'.shutdown.snapshot == s.shutdown.snapshot)
    && s.regs <= s'.regs && s.sends <= s'.sends
  }

  lemma ServeStep(s: Es, a: Action, c: ConnId)
    requires Enabled(s, a) && c in s.serves
    ensures ServeEvolves(s, Apply(s, a), c)
  {
  }

  lemma StepEvolves(s: Es, a: Action)
    requires Enabled(s, a)
    ensures Evolves(s, Apply(s, a))
  {
    forall c | c in s.serves ensures ServeEvolves(s, Apply(s, a), c) { ServeStep(s, a, c); }
    RestEvolves(s, a);
  }

  lemma RestEvolves(s: Es, a: Action)
    requires Enabled(s, a)
    ensures var s' := Apply(s, a);
            && s.conns.Keys <= s'.conns.Keys && s.regs <= s'.regs && s.sends <= s'.sends
            && (s.shutdown.Down? ==> s'.shutdown.Down? && s'.shutdown.snapshot == s.shutdown.snapshot)
  {
  }

  lemma EvolvesAt(tr: seq<Es>, i: nat)
    requires IsRun(tr) && i + 1 < |tr|
    ensures Evolves(tr[i], tr[i + 1])
  {
    assert StepAt(tr, i);
    var a :| Enabled(tr[i], a) && tr[i + 1] == Apply(tr[i], a);
    StepEvolves(tr[i], a);
  }

  lemma Evolves3(s: Es, s': Es, s'': Es)
    requires Evolves(s, s') && Evolves(s', s'')
    ensures Evolves(s, s'')
  {
    forall c | c in s.serves ensures ServeEvolves(s, s'', c) {
      assert ServeEvolves(s, s', c) && ServeEvolves(s', s'', c);
    }
  }

  lemma {:induction false} RunEvolves(tr: seq<Es>, i: nat, j: nat)
    requires IsRun(tr) && i <= j < |tr|
    ensures Evolves(tr[i], tr[j])
    decreases j
  {
    if i < j {
      RunEvolves(tr, i, j - 1);
      EvolvesAt(tr, j - 1);
      Evolves3(tr[i], tr[j - 1], tr[j]);
    }
  }

  // ---------- shutdown ----------

  /** Steps that the goroutines of a shutdown still have to take. */
  function Work(d: Shutdown): nat {
    if d.NotStarted? then 0 else 3 * |d.unspawned| + 2 * |d.toSend| + |d.toClose|
  }

  predicate IsShutdownStep(a: Action) {
    a.Spawn? || a.CloserSends? || a.CloserCloses?
  }

  /**
   No goroutine is ever blocked: whatever the collector did, each has its next step enabled, because errCh never
   fills up.
   */
  lemma ShutdownNeverBlocks(tr: seq<Es>, i: nat, u: ID)
    requires IsRun(tr) && i < |tr| && tr[i].shutdown.Down?
    ensures u in tr[i].shutdown.unspawned ==> Enabled(tr[i], Spawn(u))
    ensures u in tr[i].shutdown.toSend ==> Enabled(tr[i], CloserSends(u))
    ensures u in tr[i].shutdown.toClose ==> Enabled(tr[i], CloserCloses(u))
  {
    RunInv(tr, i);
    var d := tr[i].shutdown;
    PartitionSize(d);
    assert SnapshotInv(tr[i], u);
    if u in d.toSend {
      assert |d.toSend| > 0;
    }
  }

  lemma DownStepWork(d: Shutdown, n: nat, a: Action)
    requires DownEnabled(d, n, a) && Partition(d)
    ensures Work(DownStep(d, n, a)) == Work(d) - if IsShutdownStep(a) then 1 else 0
  {
    if IsShutdownStep(a) {
      assert Places(d, a.u) <= 1;
      match a
      case Spawn(u) => MoveOne(d.unspawned, d.toSend, u);
      case CloserSends(u) => MoveOne(d.toSend, d.toClose, u);
      case CloserCloses(u) => MoveOne(d.toClose, d.finished, u);
    }
  }

  /** Each goroutine step uses up one unit of work and no other step adds any. */
  lemma ShutdownTerminates(s: Es, a: Action)
    requires ClosersInv(s.shutdown) && Enabled(s, a) && s.shutdown.Down?
    ensures Work(Apply(s, a).shutdown) == Work(s.shutdown) - if IsShutdownStep(a) then 1 else 0
  {
    if InShutdown(a) {
      DownStepWork(s.shutdown, |s.conns|, a);
    }
  }

  lemma PlacesAreDisjoint(d: Shutdown)
    requires d.Down? && Partition(d)
    ensures d.unspawned !! d.toSend && d.toClose !! d.finished && d.unspawned + d.toSend !! d.toClose + d.finished
    ensures d.unspawned + d.toSend + (d.toClose + d.finished) == d.snapshot.Keys
  {
    forall u: ID
      ensures !(u in d.unspawned && u in d.toSend) && !(u in d.toClose && u in d.finished)
      ensures !(u in d.unspawned + d.toSend && u in d.toClose + d.finished)
      ensures u in d.unspawned + d.toSend + (d.toClose + d.finished) <==> u in d.snapshot.Keys
    {
      assert Places(d, u) == if u in d.snapshot then 1 else 0;
    }
  }

  lemma PartitionSize(d: Shutdown)
    requires d.Down? && Partition(d)
    ensures |d.unspawned| + |d.toSend| + |d.toClose| + |d.finished| == |d.snapshot|
    ensures d.unspawned + d.toSend + (d.toClose + d.finished) == d.snapshot.Keys
  {
    PlacesAreDisjoint(d);
    var x, y := d.unspawned + d.toSend, d.toClose + d.finished;
    assert |x| == |d.unspawned| + |d.toSend|;
    assert |y| == |d.toClose| + |d.finished|;
    assert |x + y| == |x| + |y|;
    assert |d.snapshot.Keys| == |d.snapshot|;
  }

  /** The steps between two states of a run in which a goroutine of the shutdown moved. */
  function GoroutineMoves(tr: seq<Es>, i: nat, j: nat): nat
    requires i <= j < |tr|
    decreases j
  {
    if i == j then 0
    else GoroutineMoves(tr, i, j - 1) + if Moved(tr[j - 1].shutdown, tr[j].shutdown) then 1 else 0
  }

  predicate Moved(d: Shutdown, d': Shutdown) {
    d.Down? && d'.Down? && (d'.unspawned != d.unspawned || d'.toSend != d.toSend || d'.toClose != d.toClose)
  }

  lemma OnlyGoroutinesMove(s: Es, a: Action)
    requires Enabled(s, a) && s.shutdown.Down?
    ensures Moved(s.shutdown, Apply(s, a).shutdown) <==> IsShutdownStep(a)
  {
    var d' := Apply(s, a).shutdown;
    match a
    case Spawn(u) => assert u !in d'.unspawned && u in s.shutdown.unspawned;
    case CloserSends(u) => assert u !in d'.toSend && u in s.shutdown.toSend;
    case CloserCloses(u) => assert u !in d'.toClose && u in s.shutdown.toClose;
    case _ =>
  }

  lemma StepMoves(s: Es, s': Es)
    requires EsInv(s) && Next(s, s') && s.shutdown.Down?
    ensures s'.shutdown.Down?
    ensures Work(s'.shutdown) == Work(s.shutdown) - if Moved(s.shutdown, s'.shutdown) then 1 else 0
  {
    var a :| Enabled(s, a) && s' == Apply(s, a);
    ShutdownTerminates(s, a);
    OnlyGoroutinesMove(s, a);
  }

  lemma MoveAt(tr: seq<Es>, i: nat)
    requires IsRun(tr) && i + 1 < |tr| && tr[i].shutdown.Down?
    ensures tr[i + 1].shutdown.Down?
    ensures Work(tr[i + 1].shutdown)
            == Work(tr[i].shutdown) - if Moved(tr[i].shutdown, tr[i + 1].shutdown) then 1 else 0
  {
    RunInv(tr, i);
    assert StepAt(tr, i);
    StepMoves(tr[i], tr[i + 1]);
  }

  lemma WorkAtLock(tr: seq<Es>, k: nat)
    requires IsRun(tr) && k + 1 < |tr| && tr[k].shutdown.NotStarted? && tr[k + 1].shutdown.Down?
    ensures Work(tr[k + 1].shutdown) == 3 * |tr[k].conns|
  {
    assert StepAt(tr, k);
    LockTaken(tr[k], tr[k + 1]);
    assert |tr[k].conns.Keys| == |tr[k].conns|;
  }

  lemma LockTaken(s: Es, s': Es)
    requires Next(s, s') && s.shutdown.NotStarted? && s'.shutdown.Down?
    ensures s'.shutdown.snapshot == s.conns
    ensures Work(s'.shutdown) == 3 * |s.conns.Keys|
  {
    var a :| Enabled(s, a) && s' == Apply(s, a);
    assert a.ShutdownBegins?;
  }

  /**
   From the lock on, the goroutines move exactly three times per connection in the table, in every interleaving: they
   have all terminated exactly when that many moves have been made.
   */
  lemma {:induction false} ShutdownMovesAreCounted(tr: seq<Es>, k: nat, j: nat)
    requires IsRun(tr) && k < j < |tr| && tr[k].shutdown.NotStarted? && tr[k + 1].shutdown.Down?
    ensures tr[j].shutdown.Down? && GoroutineMoves(tr, k + 1, j) + Work(tr[j].shutdown) == 3 * |tr[k].conns|
    decreases j
  {
    SnapshotAtLock(tr, k, j);
    if j == k + 1 {
      WorkAtLock(tr, k);
    } else {
      ShutdownMovesAreCounted(tr, k, j - 1);
      MoveAt(tr, j - 1);
    }
  }

  /**
   The collector cannot be stuck once the goroutines are done: either a message is buffered or all have been taken.
   */
  lemma CollectorCanFinish(tr: seq<Es>, i: nat)
    requires IsRun(tr) && i < |tr| && tr[i].shutdown.Down? && Work(tr[i].shutdown) == 0
    requires tr[i].shutdown.main.Collecting?
    ensures Enabled(tr[i], Collect) || Enabled(tr[i], CollectorEnds)
  {
    RunInv(tr, i);
    AllSent(tr[i].shutdown);
  }

  /**
   InitiateShutdown returns the context's error exactly when the collector ended before it had a message of every
   connection in the locked table; when it returns nil, every goroutine has been spawned and has sent its message.
   */
  lemma CollectorResult(tr: seq<Es>, i: nat)
    requires IsRun(tr) && i < |tr| && tr[i].shutdown.Down? && tr[i].shutdown.main.Done?
    ensures var d := tr[i].shutdown;
            && (d.main.ctxDone <==> d.collected < |d.snapshot|)
            && (!d.main.ctxDone ==> d.unspawned == {} && d.toSend == {} && d.buffer == 0)
  {
    RunInv(tr, i);
    PartitionSize(tr[i].shutdown);
  }

  lemma AllSent(d: Shutdown)
    requires d.Down? && ClosersInv(d) && Work(d) == 0
    ensures d.finished == d.snapshot.Keys && d.buffer + d.collected == |d.snapshot|
  {
    PartitionSize(d);
    assert d.unspawned == {} && d.toSend == {} && d.toClose == {};
  }

  /**
   When the goroutines of a shutdown have terminated, the waitCh of a call is closed exactly once if its
   connection was the table's entry for its user at lock time, and never otherwise; a closed waiter can return.
   */
  lemma ShutdownWakesTheTable(tr: seq<Es>, k: nat, i: nat, c: ConnId)
    requires IsRun(tr) && k < i < |tr| && tr[k].shutdown.NotStarted? && tr[k + 1].shutdown.Down?
    requires Work(tr[i].shutdown) == 0 && c in tr[i].serves
    ensures tr[i].serves[c].closes == if c in tr[k].conns.Values then 1 else 0
    ensures tr[i].serves[c].pc.Waiting? ==> (Enabled(tr[i], Wake(c)) <==> c in tr[k].conns.Values)
  {
    SnapshotAtLock(tr, k, i);
    RunInv(tr, i);
    var d, u := tr[i].shutdown, tr[i].serves[c].user;
    assert ServeInv(tr[i], c);
    AllSent(d);
    if c in d.snapshot.Values {
      var v :| v in d.snapshot && d.snapshot[v] == c;
      assert SnapshotInv(tr[i], v);
      assert v == u;
    }
  }

  /** A shutdown works on the table as it was when the lock was taken. */
  lemma SnapshotAtLock(tr: seq<Es>, k: nat, i: nat)
    requires IsRun(tr) && k < i < |tr| && tr[k].shutdown.NotStarted? && tr[k + 1].shutdown.Down?
    ensures tr[i].shutdown.Down? && tr[i].shutdown.snapshot == tr[k].conns
  {
    assert StepAt(tr, k);
    LockTaken(tr[k], tr[k + 1]);
    RunEvolves(tr, k + 1, i);
  }

  /** If no user has connected twice by lock time, every call that had registered by then is woken. */
  lemma ShutdownWakesEveryone(tr: seq<Es>, k: nat, i: nat, c: ConnId)
    requires IsRun(tr) && k < i < |tr| && tr[k].shutdown.NotStarted? && tr[k + 1].shutdown.Down?
    requires forall x, y ::
      x in tr[k].serves && y in tr[k].serves && tr[k].serves[x].user == tr[k].serves[y].user ==> x == y
    requires Work(tr[i].shutdown) == 0 && c in tr[k].serves
    ensures c in tr[i].serves && tr[i].serves[c].closes == 1
    ensures tr[i].serves[c].pc.Waiting? ==> Enabled(tr[i], Wake(c))
  {
    RunInv(tr, k);
    RunEvolves(tr, k, i);
    assert ServeEvolves(tr[k], tr[i], c);
    var u := tr[k].serves[c].user;
    assert tr[k].conns[u] == c;
    ShutdownWakesTheTable(tr, k, i, c);
  }

  /**
   The call whose table entry was overwritten, with no shutdown begun, waits forever: nothing ever closes its channel,
   and a call that had come to its wait is still there in every later state.
   */
  lemma OverwrittenNeverWakes(tr: seq<Es>, k: nat, i: nat, c: ConnId)
    requires IsRun(tr) && k <= i < |tr| && tr[k].shutdown.NotStarted?
    requires c in tr[k].serves && Overwritten(tr[k], c)
    ensures c in tr[i].serves && tr[i].serves[c].closes == 0 && !tr[i].serves[c].pc.Returned?
    ensures tr[k].serves[c].pc.Waiting? ==> tr[i].serves[c].pc.Waiting?
  {
    ServeOverRun(tr, k, i, c);
    if tr[i].shutdown.Down? {
      SnapshotOmits(tr, k, i, c);
    }
  }

  ghost predicate Overwritten(s: Es, c: ConnId)
    requires c in s.serves
  {
    s.serves[c].user in s.conns && s.conns[s.serves[c].user] != c
  }

  ghost predicate RunTo(tr: seq<Es>, s: Es) {
    IsRun(tr) && tr[|tr| - 1] == s
  }

  ghost predicate Reachable(s: Es) {
    exists tr :: RunTo(tr, s)
  }

  lemma ExtendRun(tr: seq<Es>, s: Es, a: Action)
    requires RunTo(tr, s) && Enabled(s, a)
    ensures RunTo(tr + [Apply(s, a)], Apply(s, a))
  {
    var tr' := tr + [Apply(s, a)];
    forall i: nat | i + 1 < |tr'| ensures StepAt(tr', i) {
      if i + 1 < |tr| { assert StepAt(tr, i); }
    }
  }

  lemma Extend(s: Es, a: Action)
    requires Reachable(s) && Enabled(s, a)
    ensures Reachable(Apply(s, a))
  {
    var tr :| RunTo(tr, s);
    ExtendRun(tr, s, a);
  }

  ghost predicate WaitsOverwritten(s: Es, c: ConnId) {
    c in s.serves && s.serves[c].pc.Waiting? && Overwritten(s, c) && s.shutdown.NotStarted?
  }

  /** One user, connected by call 0, which waits. */
  function OneWaiter(u: ID): Es {
    Apply(Apply(NEW_SERVER, Register(0, u)), LaunchSucceeds(0, 0))
  }

  lemma OneWaiterReachable(u: ID)
    ensures Reachable(OneWaiter(u))
  {
    assert RunTo([NEW_SERVER], NEW_SERVER);
    Extend(NEW_SERVER, Register(0, u));
    Extend(Apply(NEW_SERVER, Register(0, u)), LaunchSucceeds(0, 0));
  }

  /** A user who connects while a call of theirs waits: that call is overwritten, and waits in a reachable state. */
  lemma OverwrittenReachable(u: ID)
    ensures exists s, c :: Reachable(s) && WaitsOverwritten(s, c) && s.serves[c].user == u
  {
    OneWaiterReachable(u);
    Extend(OneWaiter(u), Register(1, u));
    assert WaitsOverwritten(Apply(OneWaiter(u), Register(1, u)), 0);
  }

  /** The state in which the one waiter of a server has been woken, and its shutdown has ended with nil. */
  ghost predicate ShutDown(s: Es, c: ConnId) {
    && c in s.serves && s.serves[c].pc.Returned? && s.serves[c].closes == 1
    && s.shutdown.Down? && s.shutdown.main == Done(false) && Work(s.shutdown) == 0
  }

  /** A shutdown can run to its end: the waiter returns, and so does InitiateShutdown, with nil. */
  lemma ShutdownCompletes(u: ID)
    ensures exists s, c :: Reachable(s) && ShutDown(s, c)
  {
    OneWaiterReachable(u);
    var s := OneWaiter(u);
    Extend(s, ShutdownBegins);
    s := Apply(s, ShutdownBegins);
    Extend(s, Spawn(u));
    s := Apply(s, Spawn(u));
    assert s.shutdown.unspawned == {} && s.shutdown.toSend == {u};
    Extend(s, SpawnLoopEnds);
    s := Apply(s, SpawnLoopEnds);
    GoroutineCompletes(s, u);
  }

  lemma GoroutineCompletes(s: Es, u: ID)
    requires Reachable(s) && 0 in s.serves && s.serves[0] == Serve(u, Waiting, 0) && s.conns == map[u := 0]
    requires s.shutdown == Down(map[u := 0], {}, {u}, {}, {}, 0, 0, Collecting)
    ensures exists s', c :: Reachable(s') && ShutDown(s', c)
  {
    Extend(s, CloserSends(u));
    var t := Apply(s, CloserSends(u));
    assert t.shutdown.toSend == {} && t.shutdown.toClose == {u};
    Extend(t, CloserCloses(u));
    t := Apply(t, CloserCloses(u));
    assert t.shutdown.toClose == {};
    Extend(t, Collect);
    t := Apply(t, Collect);
    Extend(t, CollectorEnds);
    t := Apply(t, CollectorEnds);
    Extend(t, Wake(0));
    assert ShutDown(Apply(t, Wake(0)), 0);
  }

  lemma ServeOverRun(tr: seq<Es>, k: nat, i: nat, c: ConnId)
    requires IsRun(tr) && k <= i < |tr| && c in tr[k].serves
    ensures c in tr[i].serves && tr[i].serves[c].user == tr[k].serves[c].user && ServeInv(tr[i], c)
    ensures tr[k].serves[c].pc.Waiting? ==> tr[i].serves[c].pc.Waiting? || tr[i].serves[c].pc.Returned?
  {
    RunEvolves(tr, k, i);
    RunInv(tr, i);
    assert ServeEvolves(tr[k], tr[i], c);
  }

  lemma {:induction false} SnapshotOmits(tr: seq<Es>, k: nat, i: nat, c: ConnId)
    requires IsRun(tr) && k <= i < |tr| && tr[k].shutdown.NotStarted? && tr[i].shutdown.Down?
    requires c in tr[k].serves && Overwritten(tr[k], c)
    ensures var u := tr[k].serves[c].user; u in tr[i].shutdown.snapshot ==> tr[i].shutdown.snapshot[u] != c
    decreases i
  {
    assert k < i;
    RunEvolves(tr, k, i - 1);
    assert ServeEvolves(tr[k], tr[i - 1], c);
    assert StepAt(tr, i - 1);
    var a :| Enabled(tr[i - 1], a) && tr[i] == Apply(tr[i - 1], a);
    if tr[i - 1].shutdown.Down? {
      SnapshotOmits(tr, k, i - 1, c);
      StepEvolves(tr[i - 1], a);
    } else {
      assert tr[i].shutdown.snapshot == tr[i - 1].conns;
    }
  }

  // ---------- delivery ----------

  /**
   Every SendEvent went to the connection most recently registered for its recipient, and failed exactly when there
   was none.
   */
  lemma DeliveryFollowsTable(tr: seq<Es>, i: nat, n: nat)
    requires IsRun(tr) && i < |tr| && n < |tr[i].sends|
    ensures var r := tr[i].sends[n];
            && r.at <= |tr[i].regs| && r.target == LatestReg(tr[i].regs[..r.at], r.user)
            && (r.target.None? <==> forall k :: 0 <= k < r.at ==> tr[i].regs[k].user != r.user)
  {
    RunInv(tr, i);
    var r := tr[i].sends[n];
    assert SentInv(tr[i].regs, r);
    NeverRegistered(tr[i].regs[..r.at], r.user);
  }

  lemma {:induction false} NeverRegistered(regs: seq<Registration>, u: ID)
    ensures LatestReg(regs, u).None? <==> forall k :: 0 <= k < |regs| ==> regs[k].user != u
  {
    if regs != [] {
      NeverRegistered(regs[..|regs| - 1], u);
      assert forall k :: 0 <= k < |regs| - 1 ==> regs[..|regs| - 1][k] == regs[k];
    }
  }
}
