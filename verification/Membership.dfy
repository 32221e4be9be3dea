/**
 Cluster membership as a step machine: etcd, any number of event server processes that join,
 refresh and leave, and a gateway registry, under every interleaving of their atomic steps.
 */
module Membership {
  import opened Common
  import opened Etcd
  import opened Lease
  import opened Registry

  type Pid = nat

  datatype JoinPc = NotJoined | Joining | Looping | LoopExited | JoinFailed

  datatype LeavePc = NotCalled | Awaiting | ReturnedNil | TimedOut

  /**
   One event server process. `inflight` are puts sent and not yet handled by etcd; `accepted` is the last one etcd
   took.
   */
  datatype Mgr = Mgr(
    id: string,
    lease: LeaseState,
    join: JoinPc,
    closeReq: bool,
    leave: LeavePc,
    inflight: multiset<ServerInfo>,
    accepted: Option<ServerInfo>)

  datatype RegPhase = RegNew | RegSnapped | RegWatching | RegStopped | RegFailed

  /** The gateway registry; `upto` is the number of log entries its watch has passed. */
  datatype Reg = Reg(phase: RegPhase, cache: Cache, startRev: nat, upto: nat)

  datatype Cluster = Cluster(store: Store, mgrs: map<Pid, Mgr>, holder: map<LeaseID, Pid>, reg: Reg)

  datatype StartOutcome = GrantRefused | GrantReplyLost | KeepAliveRefused | KeptAlive

  datatype Action =
    | NewServer(p: Pid, id: string)
    | StartJoin(p: Pid, outcome: StartOutcome)
    | LeaseStep(p: Pid, a: LeaseAction)
    | RevokeArrives(p: Pid, order: seq<string>)
    | SendRefresh(p: Pid, info: ServerInfo)
    | PutArrives(p: Pid, info: ServerInfo)
    | PutDropped(p: Pid, info: ServerInfo)
    | JoinReturns(p: Pid, success: bool)
    | LoopExits(p: Pid)
    | LeaveCalled(p: Pid)
    | LeaveReturns(p: Pid)
    | LeaveTimesOut(p: Pid)
    | Expire(lease: LeaseID, order: seq<string>)
    | OtherPut(key: string, value: Value)
    | Snapshot(reply: seq<KV>)
    | OpenWatch
    | Deliver
    | StopWatch

  ghost predicate Init(s: Cluster) {
    s == Cluster(EMPTY, map[], map[], Reg(RegNew, map[], 0, 0))
  }

  ghost predicate CanStep(s: Cluster, a: Action) {
    match a
    case NewServer(p, _) => p !in s.mgrs
    case StartJoin(p, _) => p in s.mgrs && !s.mgrs[p].lease.started
    // the keep-alive goroutine; its Revoke reaches etcd in RevokeArrives, closeCh closes in LeaveCalled
    case LeaseStep(p, a) =>
      && p in s.mgrs && (a.LeaveSelect? || a.RevokeReply? || a.CloseLost?) && Enabled(s.mgrs[p].lease, a)
    case RevokeArrives(p, order) =>
      && p in s.mgrs && Enabled(s.mgrs[p].lease, RevokeApplied)
      && s.mgrs[p].lease.id.Some? && s.mgrs[p].lease.id.value in s.store.alive
      && AttachedKeys(s.store, s.mgrs[p].lease.id.value, order)
    case SendRefresh(p, info) =>
      && p in s.mgrs && (s.mgrs[p].join.Joining? || s.mgrs[p].join.Looping?)
      && info.id == s.mgrs[p].id && info.id != ""
    case PutArrives(p, info) => p in s.mgrs && info in s.mgrs[p].inflight && s.mgrs[p].lease.id.Some?
    case PutDropped(p, info) => p in s.mgrs && info in s.mgrs[p].inflight
    case JoinReturns(p, success) =>
      p in s.mgrs && s.mgrs[p].join.Joining? && (success ==> s.mgrs[p].accepted.Some?)
    case LoopExits(p) => p in s.mgrs && s.mgrs[p].join.Looping? && (s.mgrs[p].lease.lost || s.mgrs[p].closeReq)
    case LeaveCalled(p) => p in s.mgrs && s.mgrs[p].leave.NotCalled? && Enabled(s.mgrs[p].lease, Close)
    case LeaveReturns(p) => p in s.mgrs && s.mgrs[p].leave.Awaiting? && s.mgrs[p].lease.lost
    case LeaveTimesOut(p) => p in s.mgrs && s.mgrs[p].leave.Awaiting?
    case Expire(lease, order) => lease in s.store.alive && AttachedKeys(s.store, lease, order)
    case OtherPut(key, _) => !InNamespace(key)
    case Snapshot(reply) => s.reg.phase.RegNew? && GetReply(Contents(s.store.kvs), reply)
    case OpenWatch => s.reg.phase.RegSnapped?
    case Deliver => s.reg.phase.RegWatching? && s.reg.upto < |s.store.log|
    case StopWatch => s.reg.phase.RegWatching?
  }

  function WithMgr(s: Cluster, p: Pid, m: Mgr): Cluster {
    s.(mgrs := s.mgrs[p := m])
  }

  function Granted(s: Cluster, p: Pid, keepAliveOk: bool): Cluster
    requires p in s.mgrs
  {
    var m := s.mgrs[p];
    WithMgr(s.(store := Grant(s.store), holder := s.holder[s.store.nextLease := p]), p,
            m.(lease := Lease.Apply(m.lease, Start(Some(s.store.nextLease), keepAliveOk)),
               join := if keepAliveOk then Joining else JoinFailed))
  }

  function DeliverOne(reg: Reg, log: seq<Logged>): Reg
    requires reg.upto < |log|
  {
    var e := log[reg.upto].event;
    reg.(cache := if InNamespace(e.key) then CacheApply(reg.cache, e) else reg.cache, upto := reg.upto + 1)
  }

  ghost function Step(s: Cluster, a: Action): Cluster
    requires CanStep(s, a)
  {
    match a
    case NewServer(p, id) => WithMgr(s, p, Mgr(id, NEW_LEASE, NotJoined, false, NotCalled, multiset{}, None))
    case StartJoin(p, outcome) =>
      var m := s.mgrs[p];
      var refused := m.(lease := Lease.Apply(m.lease, Start(None, false)), join := JoinFailed);
      (match outcome
       case GrantRefused => WithMgr(s, p, refused)
       case GrantReplyLost => WithMgr(s.(store := Grant(s.store)), p, refused)
       case KeepAliveRefused => Granted(s, p, false)
       case KeptAlive => Granted(s, p, true))
    case LeaseStep(p, a) => WithMgr(s, p, s.mgrs[p].(lease := Lease.Apply(s.mgrs[p].lease, a)))
    case RevokeArrives(p, order) =>
      var m := s.mgrs[p];
      WithMgr(s.(store := Kill(s.store, m.lease.id.value, order)), p, m.(lease := Lease.Apply(m.lease, RevokeApplied)))
    case SendRefresh(p, info) => WithMgr(s, p, s.mgrs[p].(inflight := s.mgrs[p].inflight + multiset{info}))
    case PutArrives(p, info) =>
      var m := s.mgrs[p];
      if Accepts(s.store, m.lease.id.value) then Accepted(s, p, info, m.lease.id.value)
      else WithMgr(s, p, m.(inflight := m.inflight - multiset{info}))
    case PutDropped(p, info) => WithMgr(s, p, s.mgrs[p].(inflight := s.mgrs[p].inflight - multiset{info}))
    case JoinReturns(p, success) => WithMgr(s, p, s.mgrs[p].(join := if success then Looping else JoinFailed))
    case LoopExits(p) => WithMgr(s, p, s.mgrs[p].(join := LoopExited))
    case LeaveCalled(p) =>
      var m := s.mgrs[p];
      WithMgr(s, p, m.(closeReq := true, leave := Awaiting, lease := Lease.Apply(m.lease, Close)))
    case LeaveReturns(p) => WithMgr(s, p, s.mgrs[p].(leave := ReturnedNil))
    case LeaveTimesOut(p) => WithMgr(s, p, s.mgrs[p].(leave := TimedOut))
    case Expire(lease, order) => s.(store := Kill(s.store, lease, order))
    case OtherPut(key, value) => s.(store := Put(s.store, key, value, NO_LEASE))
    case Snapshot(reply) =>
      var loaded := Load(map[], reply);
      s.(reg := if loaded.None? then s.reg.(phase := RegFailed)
                else Reg(RegSnapped, loaded.value, s.store.rev + 1, 0))
    case OpenWatch => s.(reg := s.reg.(phase := RegWatching, upto := WatchFrom(s.store.log, s.reg.startRev)))
    case Deliver => s.(reg := DeliverOne(s.reg, s.store.log))
    case StopWatch => s.(reg := s.reg.(phase := RegStopped))
  }

  /** One step, or none: runs may stutter, so that they compose with steps of other components. */
  ghost predicate Next(s: Cluster, s': Cluster) {
    s' == s || exists a :: CanStep(s, a) && s' == Step(s, a)
  }

  ghost predicate StepAt(tr: seq<Cluster>, i: nat)
    requires i + 1 < |tr|
  {
    Next(tr[i], tr[i + 1])
  }

  ghost predicate IsRun(tr: seq<Cluster>) {
    && |tr| > 0 && Init(tr[0])
    && (forall i: nat :: i + 1 < |tr| ==> StepAt(tr, i))
  }

  /** No other process was configured with the ID of p. */
  ghost predicate UniqueID(s: Cluster, p: Pid)
    requires p in s.mgrs
  {
    forall q :: q in s.mgrs && q != p ==> s.mgrs[q].id != s.mgrs[p].id
  }

  ghost predicate LeaseAlive(s: Cluster, p: Pid)
    requires p in s.mgrs
  {
    s.mgrs[p].lease.id.Some? && s.mgrs[p].lease.id.value in s.store.alive
  }

  // ---------- invariant ----------

  ghost predicate MgrInv(s: Cluster, p: Pid)
    requires p in s.mgrs
  {
    var m := s.mgrs[p];
    && LeaseInv(m.lease)
    && (m.lease.id.Some? ==> m.lease.id.value in s.holder && s.holder[m.lease.id.value] == p)
    && (m.lease.pc == Revoking(true) || m.lease.pc == Closing || m.lease.pc == Exited(true) ==> !LeaseAlive(s, p))
    && (m.inflight != multiset{} || m.accepted.Some? || m.join.Joining? || m.join.Looping? ==> m.lease.id.Some?)
    && (forall i :: i in m.inflight ==> i.id == m.id)
    && (m.accepted.Some? ==> m.accepted.value.id == m.id)
    && (m.leave.ReturnedNil? ==> m.lease.lost)
  }

  ghost predicate HolderInv(s: Cluster) {
    forall l :: l in s.holder ==>
      && NO_LEASE < l < s.store.nextLease
      && s.holder[l] in s.mgrs && s.mgrs[s.holder[l]].lease.id == Some(l)
  }

  /** What a binding in the namespace says: who wrote it, under which key, and that its lease lives. */
  ghost predicate BindingInv(s: Cluster, k: string)
    requires k in s.store.kvs
  {
    var b := s.store.kvs[k];
    if !InNamespace(k) then b.lease == NO_LEASE
    else
      && b.lease in s.store.alive && b.lease in s.holder && s.holder[b.lease] in s.mgrs
      && var m := s.mgrs[s.holder[b.lease]];
         k == Key(m.id) && m.accepted.Some? && b.value == InfoJSON(m.accepted.value)
  }

  ghost predicate Listed(s: Cluster, p: Pid)
    requires p in s.mgrs
  {
    var m := s.mgrs[p];
    m.accepted.Some? && LeaseAlive(s, p) && UniqueID(s, p) ==>
      Key(m.id) in s.store.kvs && s.store.kvs[Key(m.id)].lease == m.lease.id.value
  }

  ghost predicate WritesInv(s: Cluster) {
    && (forall k :: k in s.store.kvs ==> BindingInv(s, k))
    && (forall p :: p in s.mgrs ==> Listed(s, p))
  }

  ghost predicate LogInv(log: seq<Logged>) {
    forall i :: 0 <= i < |log| ==> InNamespace(log[i].event.key) ==> WellKeyedEvent(log[i].event)
  }

  ghost predicate RegInv(reg: Reg, store: Store) {
    match reg.phase
    case RegNew => true
    case RegFailed => false
    case RegSnapped =>
      && reg.startRev <= store.rev + 1
      && Agrees(reg.cache, Replay(store.log[..WatchFrom(store.log, reg.startRev)]))
    case _ =>
      && reg.startRev <= store.rev + 1
      && WatchFrom(store.log, reg.startRev) <= reg.upto <= |store.log|
      && Agrees(reg.cache, Replay(store.log[..reg.upto]))
  }

  ghost predicate ClusterInv(s: Cluster) {
    && Etcd.Inv(s.store)
    && (forall p :: p in s.mgrs ==> MgrInv(s, p))
    && HolderInv(s) && WritesInv(s) && LogInv(s.store.log) && RegInv(s.reg, s.store)
  }

  // ---------- preservation ----------

  lemma UniqueShrinks(s: Cluster, s': Cluster, q: Pid)
    requires q in s.mgrs
    requires forall r :: r in s.mgrs ==> r in s'.mgrs && s'.mgrs[r].id == s.mgrs[r].id
    ensures UniqueID(s', q) ==> UniqueID(s, q)
  {
    if UniqueID(s', q) {
      forall r | r in s.mgrs && r != q ensures s.mgrs[r].id != s.mgrs[q].id {
        assert s'.mgrs[r].id != s'.mgrs[q].id;
      }
    }
  }

  /** A step of one process that touches neither etcd nor what etcd accepted from it. */
  lemma LocalStep(s: Cluster, p: Pid, m': Mgr)
    requires ClusterInv(s) && p in s.mgrs
    requires m'.id == s.mgrs[p].id && m'.accepted == s.mgrs[p].accepted && m'.lease.id == s.mgrs[p].lease.id
    requires MgrInv(WithMgr(s, p, m'), p)
    ensures ClusterInv(WithMgr(s, p, m'))
  {
    LocalMgrs(s, p, m');
    LocalBindings(s, p, m');
    LocalHolders(s, p, m');
  }

  lemma LocalHolders(s: Cluster, p: Pid, m': Mgr)
    requires HolderInv(s) && p in s.mgrs && m'.lease.id == s.mgrs[p].lease.id
    ensures HolderInv(WithMgr(s, p, m'))
  {
  }

  lemma LocalMgrs(s: Cluster, p: Pid, m': Mgr)
    requires p in s.mgrs && (forall q :: q in s.mgrs ==> MgrInv(s, q) && Listed(s, q))
    requires m'.id == s.mgrs[p].id && m'.accepted == s.mgrs[p].accepted && m'.lease.id == s.mgrs[p].lease.id
    ensures forall q :: q in s.mgrs ==> Listed(WithMgr(s, p, m'), q) && (q != p ==> MgrInv(WithMgr(s, p, m'), q))
  {
    var s' := WithMgr(s, p, m');
    forall q | q in s.mgrs ensures Listed(s', q) && (q != p ==> MgrInv(s', q)) {
      assert Listed(s, q) && MgrInv(s, q);
      UniqueShrinks(s, s', q);
    }
  }

  lemma LocalBindings(s: Cluster, p: Pid, m': Mgr)
    requires p in s.mgrs && m'.id == s.mgrs[p].id && m'.accepted == s.mgrs[p].accepted
    requires forall k :: k in s.store.kvs ==> BindingInv(s, k)
    ensures forall k :: k in s.store.kvs ==> BindingInv(WithMgr(s, p, m'), k)
  {
    forall k | k in s.store.kvs ensures BindingInv(WithMgr(s, p, m'), k) { assert BindingInv(s, k); }
  }

  lemma NewServerStep(s: Cluster, p: Pid, id: string)
    requires ClusterInv(s) && p !in s.mgrs
    ensures ClusterInv(Step(s, NewServer(p, id)))
  {
    var s' := Step(s, NewServer(p, id));
    forall q | q in s'.mgrs ensures MgrInv(s', q) && Listed(s', q) {
      if q != p {
        assert MgrInv(s, q) && Listed(s, q);
        NewServerOther(s, p, id, q);
      }
    }
    NewServerBindings(s, p, id);
  }

  lemma NewServerOther(s: Cluster, p: Pid, id: string, q: Pid)
    requires p !in s.mgrs && q in s.mgrs && MgrInv(s, q) && Listed(s, q)
    ensures MgrInv(Step(s, NewServer(p, id)), q) && Listed(Step(s, NewServer(p, id)), q)
  {
    UniqueShrinks(s, Step(s, NewServer(p, id)), q);
  }

  lemma NewServerBindings(s: Cluster, p: Pid, id: string)
    requires p !in s.mgrs && HolderInv(s) && forall k :: k in s.store.kvs ==> BindingInv(s, k)
    ensures HolderInv(Step(s, NewServer(p, id)))
    ensures forall k :: k in s.store.kvs ==> BindingInv(Step(s, NewServer(p, id)), k)
  {
    forall k | k in s.store.kvs ensures BindingInv(Step(s, NewServer(p, id)), k) { assert BindingInv(s, k); }
  }

  /** Granting a lease disturbs nothing: no process holds it and no key is bound to it. */
  lemma GrantStep(s: Cluster)
    requires ClusterInv(s)
    ensures ClusterInv(s.(store := Grant(s.store)))
  {
    var s' := s.(store := Grant(s.store));
    forall p | p in s.mgrs ensures MgrInv(s', p) && Listed(s', p) {
      assert MgrInv(s, p) && Listed(s, p) && UniqueID(s', p) == UniqueID(s, p);
    }
    forall k | k in s'.store.kvs ensures BindingInv(s', k) { assert BindingInv(s, k); }
  }

  lemma HoldStep(s: Cluster, p: Pid, l: LeaseID, m': Mgr)
    requires ClusterInv(s) && p in s.mgrs && NO_LEASE < l < s.store.nextLease && l !in s.holder
    requires !s.mgrs[p].lease.started
    requires m'.id == s.mgrs[p].id && m'.accepted == s.mgrs[p].accepted && m'.lease.id == Some(l)
    requires MgrInv(WithMgr(s.(holder := s.holder[l := p]), p, m'), p)
    ensures ClusterInv(WithMgr(s.(holder := s.holder[l := p]), p, m'))
  {
    var s' := WithMgr(s.(holder := s.holder[l := p]), p, m');
    HoldBindings(s, p, l, m');
    HoldMgrs(s, p, l, m');
    HoldHolders(s, p, l, m');
    assert WritesInv(s') by {
      forall q | q in s'.mgrs ensures Listed(s', q) { assert q in s.mgrs; }
    }
  }

  lemma HoldHolders(s: Cluster, p: Pid, l: LeaseID, m': Mgr)
    requires HolderInv(s) && p in s.mgrs && MgrInv(s, p) && NO_LEASE < l < s.store.nextLease && l !in s.holder
    requires !s.mgrs[p].lease.started && m'.lease.id == Some(l)
    ensures HolderInv(WithMgr(s.(holder := s.holder[l := p]), p, m'))
  {
  }

  /** The granted lease is recorded by a process that had none: the other processes see nothing of it. */
  lemma HoldMgrs(s: Cluster, p: Pid, l: LeaseID, m': Mgr)
    requires ClusterInv(s) && p in s.mgrs && l !in s.holder && !s.mgrs[p].lease.started
    requires m'.id == s.mgrs[p].id && m'.accepted == s.mgrs[p].accepted
    ensures forall q :: q in s.mgrs ==> Listed(WithMgr(s.(holder := s.holder[l := p]), p, m'), q)
    ensures forall q :: q in s.mgrs && q != p ==> MgrInv(WithMgr(s.(holder := s.holder[l := p]), p, m'), q)
  {
    var s' := WithMgr(s.(holder := s.holder[l := p]), p, m');
    assert MgrInv(s, p);
    forall q | q in s.mgrs ensures Listed(s', q) && (q != p ==> MgrInv(s', q)) {
      assert MgrInv(s, q) && Listed(s, q);
      UniqueShrinks(s, s', q);
    }
  }

  lemma HoldBindings(s: Cluster, p: Pid, l: LeaseID, m': Mgr)
    requires ClusterInv(s) && p in s.mgrs && l !in s.holder && m'.id == s.mgrs[p].id
    requires m'.accepted == s.mgrs[p].accepted
    ensures forall k :: k in s.store.kvs ==> BindingInv(WithMgr(s.(holder := s.holder[l := p]), p, m'), k)
  {
    var s' := WithMgr(s.(holder := s.holder[l := p]), p, m');
    forall k | k in s.store.kvs ensures BindingInv(s', k) { assert BindingInv(s, k); }
  }

  lemma StartJoinStep(s: Cluster, p: Pid, outcome: StartOutcome)
    requires ClusterInv(s) && CanStep(s, StartJoin(p, outcome))
    ensures ClusterInv(Step(s, StartJoin(p, outcome)))
  {
    var m := s.mgrs[p];
    assert MgrInv(s, p);
    var refused := m.(lease := Lease.Apply(m.lease, Start(None, false)), join := JoinFailed);
    if outcome.GrantRefused? {
      LocalStep(s, p, refused);
    } else {
      GrantStep(s);
      var g := s.(store := Grant(s.store));
      assert MgrInv(g, p);
      if outcome.GrantReplyLost? {
        LocalStep(g, p, refused);
      } else {
        var l := s.store.nextLease;
        assert l !in s.holder;
        HoldStep(g, p, l, Granted(s, p, outcome.KeptAlive?).mgrs[p]);
      }
    }
  }

  lemma LogStep(reg: Reg, store: Store, store': Store, more: seq<Logged>)
    requires RegInv(reg, store) && store'.log == store.log + more && store.rev <= store'.rev
    requires forall i :: 0 <= i < |more| ==> more[i].rev == store.rev + 1
    ensures RegInv(reg, store')
  {
    if reg.startRev <= store.rev + 1 {
      WatchFromStable(store.log, more, reg.startRev);
      assert forall n :: 0 <= n <= |store.log| ==> store'.log[..n] == store.log[..n];
    }
  }

  /** The end of a lease, by revocation or expiry. */
  lemma KillStep(s: Cluster, lease: LeaseID, order: seq<string>)
    requires ClusterInv(s) && lease in s.store.alive && AttachedKeys(s.store, lease, order)
    ensures ClusterInv(s.(store := Kill(s.store, lease, order)))
  {
    var s' := s.(store := Kill(s.store, lease, order));
    KillKeepsInv(s.store, lease, order);
    KillWrites(s, lease, order);
    LogStep(s.reg, s.store, s'.store, Deletes(s.store.rev + 1, order));
    LogDeletes(s.store.log, s.store.rev + 1, order);
  }

  lemma LogDeletes(log: seq<Logged>, rev: nat, order: seq<string>)
    requires LogInv(log)
    ensures LogInv(log + Deletes(rev, order))
  {
    var log' := log + Deletes(rev, order);
    forall i | 0 <= i < |log'| && InNamespace(log'[i].event.key) ensures WellKeyedEvent(log'[i].event) {
      assert i < |log| ==> log'[i] == log[i];
    }
  }

  lemma KillWrites(s: Cluster, lease: LeaseID, order: seq<string>)
    requires AttachedKeys(s.store, lease, order) && WritesInv(s) && forall p :: p in s.mgrs ==> MgrInv(s, p)
    requires NO_LEASE !in s.store.alive && lease in s.store.alive
    ensures WritesInv(s.(store := Kill(s.store, lease, order)))
    ensures forall p :: p in s.mgrs ==> MgrInv(s.(store := Kill(s.store, lease, order)), p)
  {
    var s' := s.(store := Kill(s.store, lease, order));
    KillRemovesAttached(s.store, lease, order);
    forall p | p in s.mgrs ensures MgrInv(s', p) && Listed(s', p) {
      assert MgrInv(s, p) && Listed(s, p) && UniqueID(s', p) == UniqueID(s, p);
    }
    forall k | k in s'.store.kvs ensures BindingInv(s', k) { assert BindingInv(s, k); }
  }

  lemma RevokeArrivesStep(s: Cluster, p: Pid, order: seq<string>)
    requires ClusterInv(s) && CanStep(s, RevokeArrives(p, order))
    ensures ClusterInv(Step(s, RevokeArrives(p, order)))
  {
    var m := s.mgrs[p];
    var killed := s.(store := Kill(s.store, m.lease.id.value, order));
    KillStep(s, m.lease.id.value, order);
    assert MgrInv(killed, p);
    LocalStep(killed, p, m.(lease := Lease.Apply(m.lease, RevokeApplied)));
  }

  lemma LogPutStep(s: Cluster, key: string, value: Value, lease: LeaseID)
    requires ClusterInv(s) && (InNamespace(key) ==> WellKeyed(key, value))
    ensures LogInv(Put(s.store, key, value, lease).log)
    ensures RegInv(s.reg, Put(s.store, key, value, lease))
  {
    LogStep(s.reg, s.store, Put(s.store, key, value, lease), [Logged(s.store.rev + 1, PutEvent(key, value))]);
  }

  /** Etcd takes the put of process p. */
  function Accepted(s: Cluster, p: Pid, info: ServerInfo, lease: LeaseID): Cluster
    requires p in s.mgrs
  {
    WithMgr(s.(store := Put(s.store, Key(info.id), InfoJSON(info), lease)), p,
            s.mgrs[p].(inflight := s.mgrs[p].inflight - multiset{info}, accepted := Some(info)))
  }

  lemma PutAcceptedStep(s: Cluster, p: Pid, info: ServerInfo, lease: LeaseID)
    requires ClusterInv(s) && p in s.mgrs && info in s.mgrs[p].inflight
    requires s.mgrs[p].lease.id == Some(lease) && Accepts(s.store, lease)
    ensures ClusterInv(Accepted(s, p, info, lease))
  {
    assert MgrInv(s, p);
    PutKeepsInv(s.store, Key(info.id), InfoJSON(info), lease);
    LogPutStep(s, Key(info.id), InfoJSON(info), lease);
    PutAcceptedMgrs(s, p, info, lease);
    PutAcceptedBindings(s, p, info, lease);
  }

  lemma PutAcceptedMgrs(s: Cluster, p: Pid, info: ServerInfo, lease: LeaseID)
    requires p in s.mgrs && s.mgrs[p].lease.id == Some(lease) && info.id == s.mgrs[p].id
    requires forall q :: q in s.mgrs ==> MgrInv(s, q) && Listed(s, q)
    ensures forall q :: q in s.mgrs ==> MgrInv(Accepted(s, p, info, lease), q) && Listed(Accepted(s, p, info, lease), q)
  {
    var s' := Accepted(s, p, info, lease);
    forall q | q in s.mgrs ensures MgrInv(s', q) && Listed(s', q) {
      assert MgrInv(s, q) && Listed(s, q);
      if q == p {
        PutAcceptedSelf(s, p, info, lease);
      } else {
        PutAcceptedOther(s, p, info, lease, q);
      }
    }
  }

  lemma PutAcceptedSelf(s: Cluster, p: Pid, info: ServerInfo, lease: LeaseID)
    requires p in s.mgrs && s.mgrs[p].lease.id == Some(lease) && info.id == s.mgrs[p].id && MgrInv(s, p)
    ensures MgrInv(Accepted(s, p, info, lease), p) && Listed(Accepted(s, p, info, lease), p)
  {
    var m, m' := s.mgrs[p], Accepted(s, p, info, lease).mgrs[p];
    assert m'.inflight <= m.inflight;
    forall i | i in m'.inflight ensures i.id == m'.id { assert i in m.inflight; }
  }

  lemma PutAcceptedOther(s: Cluster, p: Pid, info: ServerInfo, lease: LeaseID, q: Pid)
    requires p in s.mgrs && q in s.mgrs && q != p && info.id == s.mgrs[p].id && MgrInv(s, q) && Listed(s, q)
    ensures MgrInv(Accepted(s, p, info, lease), q) && Listed(Accepted(s, p, info, lease), q)
  {
    var s' := Accepted(s, p, info, lease);
    assert s'.mgrs[q] == s.mgrs[q] && s'.store.alive == s.store.alive;
    UniqueShrinks(s, s', q);
    if UniqueID(s', q) {
      assert s'.mgrs[p].id != s'.mgrs[q].id;
      if Key(info.id) == Key(s.mgrs[q].id) { KeyInjective(info.id, s.mgrs[q].id); }
    }
  }

  lemma PutAcceptedBindings(s: Cluster, p: Pid, info: ServerInfo, lease: LeaseID)
    requires p in s.mgrs && s.mgrs[p].lease.id == Some(lease) && lease in s.store.alive
    requires info.id == s.mgrs[p].id && MgrInv(s, p)
    requires forall k :: k in s.store.kvs ==> BindingInv(s, k)
    ensures forall k :: k in Accepted(s, p, info, lease).store.kvs ==> BindingInv(Accepted(s, p, info, lease), k)
  {
    var s' := Accepted(s, p, info, lease);
    forall k | k in s'.store.kvs ensures BindingInv(s', k) {
      if k != Key(info.id) { assert BindingInv(s, k); }
    }
  }

  lemma OtherPutStep(s: Cluster, key: string, value: Value)
    requires ClusterInv(s) && !InNamespace(key)
    ensures ClusterInv(Step(s, OtherPut(key, value)))
  {
    var s' := Step(s, OtherPut(key, value));
    PutKeepsInv(s.store, key, value, NO_LEASE);
    LogPutStep(s, key, value, NO_LEASE);
    forall p | p in s.mgrs ensures MgrInv(s', p) && Listed(s', p) {
      assert MgrInv(s, p) && Listed(s, p) && UniqueID(s', p) == UniqueID(s, p);
      assert InNamespace(Key(s.mgrs[p].id));
    }
    forall k | k in s'.store.kvs ensures BindingInv(s', k) {
      if k != key { assert BindingInv(s, k); }
    }
  }

  lemma DeliverStep(reg: Reg, store: Store)
    requires RegInv(reg, store) && LogInv(store.log) && reg.phase.RegWatching? && reg.upto < |store.log|
    ensures RegInv(DeliverOne(reg, store.log), store)
  {
    DeliveryAgrees(reg, store.log);
  }

  /** Delivering one entry of the log moves the agreement one entry on. */
  lemma DeliveryAgrees(reg: Reg, log: seq<Logged>)
    requires reg.upto < |log| && LogInv(log) && Agrees(reg.cache, Replay(log[..reg.upto]))
    ensures Agrees(DeliverOne(reg, log).cache, Replay(log[..reg.upto + 1]))
  {
    var e := log[reg.upto];
    assert log[..reg.upto + 1] == log[..reg.upto] + [e];
    ReplayAppend(log[..reg.upto], e);
    if InNamespace(e.event.key) {
      WellKeyedStepAgrees(reg.cache, Replay(log[..reg.upto]), e.event);
    } else {
      ForeignStepAgrees(reg.cache, Replay(log[..reg.upto]), e.event);
    }
  }

  lemma SnapshotStep(s: Cluster, reply: seq<KV>)
    requires ClusterInv(s) && CanStep(s, Snapshot(reply))
    ensures ClusterInv(Step(s, Snapshot(reply)))
  {
    var m := Contents(s.store.kvs);
    forall k | k in m && InNamespace(k) ensures WellKeyed(k, m[k]) {
      assert BindingInv(s, k);
      var p := s.holder[s.store.kvs[k].lease];
      assert MgrInv(s, p);
    }
    SnapshotAgrees(m, reply);
    assert s.store.log[..|s.store.log|] == s.store.log;
    RegOnlyStep(s, Step(s, Snapshot(reply)));
  }

  lemma WatchStep(s: Cluster, a: Action)
    requires ClusterInv(s) && CanStep(s, a) && (a.OpenWatch? || a.Deliver? || a.StopWatch?)
    ensures ClusterInv(Step(s, a))
  {
    if a.Deliver? {
      DeliverStep(s.reg, s.store);
    }
    RegOnlyStep(s, Step(s, a));
  }

  lemma PutRejectedStep(s: Cluster, p: Pid, info: ServerInfo)
    requires ClusterInv(s) && CanStep(s, PutArrives(p, info)) && !Accepts(s.store, s.mgrs[p].lease.id.value)
    ensures ClusterInv(Step(s, PutArrives(p, info)))
  {
    assert MgrInv(s, p);
    LocalStep(s, p, s.mgrs[p].(inflight := s.mgrs[p].inflight - multiset{info}));
  }

  lemma RegOnlyStep(s: Cluster, s': Cluster)
    requires ClusterInv(s) && s' == s.(reg := s'.reg) && RegInv(s'.reg, s.store)
    ensures ClusterInv(s')
  {
    forall p | p in s.mgrs ensures MgrInv(s', p) && Listed(s', p) {
      assert MgrInv(s, p) && Listed(s, p) && UniqueID(s', p) == UniqueID(s, p);
    }
    forall k | k in s.store.kvs ensures BindingInv(s', k) { assert BindingInv(s, k); }
  }

  lemma PutArrivesStep(s: Cluster, p: Pid, info: ServerInfo)
    requires ClusterInv(s) && CanStep(s, PutArrives(p, info))
    ensures ClusterInv(Step(s, PutArrives(p, info)))
  {
    if Accepts(s.store, s.mgrs[p].lease.id.value) {
      PutAcceptedStep(s, p, info, s.mgrs[p].lease.id.value);
    } else {
      PutRejectedStep(s, p, info);
    }
  }

  predicate InProcess(a: Action) {
    a.LeaseStep? || a.SendRefresh? || a.PutDropped? || a.JoinReturns? || a.LoopExits?
    || a.LeaveCalled? || a.LeaveReturns? || a.LeaveTimesOut?
  }

  predicate InRegistry(a: Action) {
    a.Snapshot? || a.OpenWatch? || a.Deliver? || a.StopWatch?
  }

  lemma StepKeepsInv(s: Cluster, a: Action)
    requires ClusterInv(s) && CanStep(s, a)
    ensures ClusterInv(Step(s, a))
  {
    if InProcess(a) {
      ProcessStep(s, a);
    } else if InRegistry(a) {
      RegistryStep(s, a);
    } else {
      StoreStep(s, a);
    }
  }

  lemma RegistryStep(s: Cluster, a: Action)
    requires ClusterInv(s) && CanStep(s, a) && InRegistry(a)
    ensures ClusterInv(Step(s, a))
  {
    if a.Snapshot? {
      SnapshotStep(s, a.reply);
    } else {
      WatchStep(s, a);
    }
  }

  /** The steps that create a process or reach etcd. */
  lemma StoreStep(s: Cluster, a: Action)
    requires ClusterInv(s) && CanStep(s, a) && !InProcess(a) && !InRegistry(a)
    ensures ClusterInv(Step(s, a))
  {
    match a
    case NewServer(p, id) => NewServerStep(s, p, id);
    case StartJoin(p, outcome) => StartJoinStep(s, p, outcome);
    case RevokeArrives(p, order) => RevokeArrivesStep(s, p, order);
    case PutArrives(p, info) => PutArrivesStep(s, p, info);
    case Expire(lease, order) => KillStep(s, lease, order);
    case OtherPut(key, value) => OtherPutStep(s, key, value);
  }

  /** The steps that stay inside one process. */
  lemma ProcessStep(s: Cluster, a: Action)
    requires ClusterInv(s) && CanStep(s, a) && InProcess(a)
    ensures ClusterInv(Step(s, a))
  {
    assert MgrInv(s, a.p);
    ProcessStepMgr(s, a);
    LocalStep(s, a.p, Step(s, a).mgrs[a.p]);
  }

  lemma ProcessStepMgr(s: Cluster, a: Action)
    requires CanStep(s, a) && InProcess(a) && MgrInv(s, a.p)
    ensures var s' := Step(s, a);
            && a.p in s'.mgrs && s' == WithMgr(s, a.p, s'.mgrs[a.p]) && MgrInv(s', a.p)
            && s'.mgrs[a.p].id == s.mgrs[a.p].id && s'.mgrs[a.p].accepted == s.mgrs[a.p].accepted
            && s'.mgrs[a.p].lease.id == s.mgrs[a.p].lease.id
  {
    if a.LeaseStep? {
      StepIsSafe(s.mgrs[a.p].lease, a.a);
    } else if a.SendRefresh? || a.PutDropped? {
      InflightStepMgr(s, a);
    }
  }

  lemma InflightStepMgr(s: Cluster, a: Action)
    requires CanStep(s, a) && (a.SendRefresh? || a.PutDropped?) && MgrInv(s, a.p)
    ensures MgrInv(Step(s, a), a.p)
  {
    var m, m' := s.mgrs[a.p], Step(s, a).mgrs[a.p];
    forall i | i in m'.inflight ensures i.id == m'.id { assert i == a.info || i in m.inflight; }
  }

  lemma NextKeepsInv(s: Cluster, s': Cluster)
    requires ClusterInv(s) && Next(s, s')
    ensures ClusterInv(s')
  {
    if a :| CanStep(s, a) && s' == Step(s, a) {
      StepKeepsInv(s, a);
    }
  }

  lemma {:induction false} RunInv(tr: seq<Cluster>, i: nat)
    requires IsRun(tr) && i < |tr|
    ensures ClusterInv(tr[i])
  {
    if i == 0 {
      assert EMPTY.log == [];
    } else {
      RunInv(tr, i - 1);
      assert StepAt(tr, i - 1);
      NextKeepsInv(tr[i - 1], tr[i]);
    }
  }
}
