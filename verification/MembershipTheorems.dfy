/** What holds of every run of the membership machine. */
module MembershipTheorems {
  import opened Common
  import opened Etcd
  import opened Lease
  import opened Registry
  import opened Membership

  // ---------- what only moves forward ----------

  ghost predicate MgrEvolves(m: Mgr, m': Mgr) {
    && m.id == m'.id
    && (m.lease.started ==> m'.lease.started && m'.lease.id == m.lease.id)
    && (m.lease.started && !m.lease.ok ==> !m'.lease.ok)
    && (m.lease.lost ==> m'.lease.lost)
    && m.lease.revokes <= m'.lease.revokes && m.lease.lostCloses <= m'.lease.lostCloses
    && (m.leave.ReturnedNil? || m.leave.TimedOut? ==> m'.leave == m.leave)
  }

  ghost predicate RegEvolves(r: Reg, r': Reg) {
    && (r.phase.RegWatching? || r.phase.RegStopped? ==>
          (r'.phase.RegWatching? || r'.phase.RegStopped?) && r'.startRev == r.startRev && r.upto <= r'.upto)
    && (r.phase.RegStopped? ==> r' == r)
  }

  ghost predicate Evolves(s: Cluster, s': Cluster) {
    && (forall p :: p in s.mgrs ==> p in s'.mgrs && MgrEvolves(s.mgrs[p], s'.mgrs[p]))
    && s.store.log <= s'.store.log && s.store.nextLease <= s'.store.nextLease
    && (forall l :: l in s'.store.alive && l < s.store.nextLease ==> l in s.store.alive)
    && RegEvolves(s.reg, s'.reg)
  }

  predicate ByProcess(a: Action, p: Pid) {
    match a
    case Expire(_, _) => false
    case OtherPut(_, _) => false
    case Snapshot(_) => false
    case OpenWatch => false
    case Deliver => false
    case StopWatch => false
    case _ => a.p == p
  }

  predicate OnLease(a: Action) {
    a.LeaseStep? || a.RevokeArrives? || a.LeaveCalled? || a.StartJoin?
  }

  lemma OthersUntouched(s: Cluster, a: Action, p: Pid)
    requires CanStep(s, a) && p in s.mgrs && !ByProcess(a, p)
    ensures p in Step(s, a).mgrs && Step(s, a).mgrs[p] == s.mgrs[p]
  {
  }

  lemma LeaseUntouched(s: Cluster, a: Action, p: Pid)
    requires CanStep(s, a) && p in s.mgrs && ByProcess(a, p) && !OnLease(a)
    ensures p in Step(s, a).mgrs && Step(s, a).mgrs[p].id == s.mgrs[p].id && Step(s, a).mgrs[p].lease == s.mgrs[p].lease
    ensures s.mgrs[p].leave.ReturnedNil? || s.mgrs[p].leave.TimedOut? ==> Step(s, a).mgrs[p].leave == s.mgrs[p].leave
  {
  }

  lemma StepMgrEvolves(s: Cluster, a: Action, p: Pid)
    requires CanStep(s, a) && p in s.mgrs && MgrInv(s, p)
    ensures p in Step(s, a).mgrs && MgrEvolves(s.mgrs[p], Step(s, a).mgrs[p])
  {
    if !ByProcess(a, p) {
      OthersUntouched(s, a, p);
    } else if !OnLease(a) {
      LeaseUntouched(s, a, p);
    } else {
      match a
      case LeaseStep(_, b) => StepIsSafe(s.mgrs[p].lease, b);
      case RevokeArrives(_, _) => StepIsSafe(s.mgrs[p].lease, RevokeApplied);
      case LeaveCalled(_) => StepIsSafe(s.mgrs[p].lease, Lease.Close);
      case StartJoin(_, _) =>
    }
  }

  lemma StepStoreEvolves(s: Cluster, a: Action)
    requires CanStep(s, a)
    ensures s.store.log <= Step(s, a).store.log && s.store.nextLease <= Step(s, a).store.nextLease
    ensures Step(s, a).store.alive <= s.store.alive + {s.store.nextLease}
    ensures s.store.nextLease in Step(s, a).store.alive && s.store.nextLease !in s.store.alive
            ==> s.store.nextLease < Step(s, a).store.nextLease
  {
  }

  lemma StepEvolves(s: Cluster, a: Action)
    requires ClusterInv(s) && CanStep(s, a)
    ensures Evolves(s, Step(s, a))
  {
    forall p | p in s.mgrs ensures p in Step(s, a).mgrs && MgrEvolves(s.mgrs[p], Step(s, a).mgrs[p]) {
      StepMgrEvolves(s, a, p);
    }
    StepStoreEvolves(s, a);
    StepRegEvolves(s, a);
  }

  lemma StepRegEvolves(s: Cluster, a: Action)
    requires CanStep(s, a)
    ensures RegEvolves(s.reg, Step(s, a).reg)
  {
  }

  lemma NextEvolves(s: Cluster, s': Cluster)
    requires ClusterInv(s) && Next(s, s')
    ensures Evolves(s, s')
  {
    if a :| CanStep(s, a) && s' == Step(s, a) {
      StepEvolves(s, a);
    }
  }

  lemma EvolvesAt(tr: seq<Cluster>, i: nat)
    requires IsRun(tr) && i + 1 < |tr|
    ensures Evolves(tr[i], tr[i + 1])
  {
    RunInv(tr, i);
    assert StepAt(tr, i);
    NextEvolves(tr[i], tr[i + 1]);
  }

  lemma {:induction false} RunEvolves(tr: seq<Cluster>, i: nat, j: nat)
    requires IsRun(tr) && i <= j < |tr|
    ensures Evolves(tr[i], tr[j])
    decreases j
  {
    if i < j {
      RunEvolves(tr, i, j - 1);
      EvolvesAt(tr, j - 1);
      Evolves3(tr[i], tr[j - 1], tr[j]);
    }
  }

  lemma Evolves3(s: Cluster, s': Cluster, s'': Cluster)
    requires Evolves(s, s') && Evolves(s', s'')
    ensures Evolves(s, s'')
  {
  }

  // ---------- lease signalling ----------

  /**
   Revoke is called at most once, leaseLostCh is closed at most once and only when the lease is dead, leaseOK never
   returns.
   */
  lemma LeaseSignalling(tr: seq<Cluster>, i: nat, j: nat, p: Pid)
    requires IsRun(tr) && i <= j < |tr| && p in tr[i].mgrs
    ensures p in tr[j].mgrs
    ensures tr[j].mgrs[p].lease.revokes <= 1 && tr[j].mgrs[p].lease.lostCloses <= 1
    ensures tr[j].mgrs[p].lease.lost ==> tr[j].mgrs[p].lease.revokes == 1 && !LeaseAlive(tr[j], p)
    ensures tr[i].mgrs[p].lease.started && !tr[i].mgrs[p].lease.ok ==> !tr[j].mgrs[p].lease.ok
    ensures tr[i].mgrs[p].lease.lost ==> tr[j].mgrs[p].lease.lost
  {
    RunEvolves(tr, i, j);
    RunInv(tr, j);
    assert MgrInv(tr[j], p);
  }

  /** The lease is dead at etcd and the process's own Revoke has not been what killed it. */
  ghost predicate DiedByItself(s: Cluster, p: Pid)
    requires p in s.mgrs
  {
    && s.mgrs[p].lease.id.Some? && !LeaseAlive(s, p)
    && !s.mgrs[p].lease.pc.Closing? && s.mgrs[p].lease.pc != Revoking(true) && s.mgrs[p].lease.pc != Exited(true)
  }

  lemma StepDiedByItself(s: Cluster, a: Action, p: Pid)
    requires CanStep(s, a) && p in s.mgrs && MgrInv(s, p) && HolderInv(s) && DiedByItself(s, p)
    ensures p in Step(s, a).mgrs && DiedByItself(Step(s, a), p)
  {
    StepMgrEvolves(s, a, p);
    StepStoreEvolves(s, a);
    var s' := Step(s, a);
    assert !LeaseAlive(s', p);
    if !ByProcess(a, p) {
      OthersUntouched(s, a, p);
    } else if !OnLease(a) {
      LeaseUntouched(s, a, p);
    }
  }

  lemma NextDiedByItself(s: Cluster, s': Cluster, p: Pid)
    requires ClusterInv(s) && Next(s, s') && p in s.mgrs && DiedByItself(s, p)
    ensures p in s'.mgrs && DiedByItself(s', p)
  {
    if a :| CanStep(s, a) && s' == Step(s, a) {
      assert MgrInv(s, p);
      StepDiedByItself(s, a, p);
    }
  }

  /** A lease that expired before its Revoke reached etcd is never signalled, and leaving never succeeds. */
  lemma {:induction false} ExpiredLeaseIsNeverSignalled(tr: seq<Cluster>, i: nat, j: nat, p: Pid)
    requires IsRun(tr) && i <= j < |tr| && p in tr[i].mgrs && DiedByItself(tr[i], p)
    ensures p in tr[j].mgrs && DiedByItself(tr[j], p)
    ensures !tr[j].mgrs[p].lease.lost && !tr[j].mgrs[p].leave.ReturnedNil?
    decreases j
  {
    if i < j {
      ExpiredLeaseIsNeverSignalled(tr, i, j - 1, p);
      RunInv(tr, j - 1);
      assert StepAt(tr, j - 1);
      NextDiedByItself(tr[j - 1], tr[j], p);
    }
    UnsignalledMeansNotLeft(tr, j, p);
  }

  lemma UnsignalledMeansNotLeft(tr: seq<Cluster>, j: nat, p: Pid)
    requires IsRun(tr) && j < |tr| && p in tr[j].mgrs && DiedByItself(tr[j], p)
    ensures !tr[j].mgrs[p].lease.lost && !tr[j].mgrs[p].leave.ReturnedNil?
  {
    RunInv(tr, j);
    assert MgrInv(tr[j], p);
  }

  /** Etcd has processed the process's own Revoke. */
  predicate OwnRevokeApplied(pc: KeepAlivePc) {
    pc == Revoking(true) || pc == Closing || pc == Exited(true)
  }

  /** In step k the process's own Revoke killed its lease while it was alive. */
  ghost predicate RevokedAt(tr: seq<Cluster>, k: nat, p: Pid)
    requires k + 1 < |tr|
  {
    && p in tr[k].mgrs && LeaseAlive(tr[k], p)
    && p in tr[k + 1].mgrs && !LeaseAlive(tr[k + 1], p) && OwnRevokeApplied(tr[k + 1].mgrs[p].lease.pc)
  }

  /** In step k the answer of a Revoke that etcd had processed was an error. */
  ghost predicate ReplyLostAt(tr: seq<Cluster>, k: nat, p: Pid)
    requires k + 1 < |tr|
  {
    && p in tr[k].mgrs && OwnRevokeApplied(tr[k].mgrs[p].lease.pc)
    && p in tr[k + 1].mgrs && !OwnRevokeApplied(tr[k + 1].mgrs[p].lease.pc)
  }

  lemma StepToApplied(s: Cluster, a: Action, p: Pid)
    requires CanStep(s, a) && p in s.mgrs && MgrInv(s, p) && !OwnRevokeApplied(s.mgrs[p].lease.pc)
    requires OwnRevokeApplied(Step(s, a).mgrs[p].lease.pc)
    ensures a.RevokeArrives? && a.p == p
  {
    if !ByProcess(a, p) {
      OthersUntouched(s, a, p);
    } else if !OnLease(a) {
      LeaseUntouched(s, a, p);
    }
  }

  lemma NewProcessHasNoLoop(s: Cluster, a: Action, p: Pid)
    requires CanStep(s, a) && p !in s.mgrs && p in Step(s, a).mgrs
    ensures Step(s, a).mgrs[p].lease == NEW_LEASE && Step(s, a).mgrs[p].join.NotJoined?
  {
  }

  lemma RevokeKillsLease(s: Cluster, p: Pid, order: seq<string>)
    requires CanStep(s, RevokeArrives(p, order))
    ensures LeaseAlive(s, p) && !LeaseAlive(Step(s, RevokeArrives(p, order)), p)
  {
  }

  /** Where a process comes to the state "own Revoke applied", a live lease has been revoked. */
  lemma NextToApplied(s: Cluster, s': Cluster, p: Pid)
    requires ClusterInv(s) && Next(s, s') && p in s'.mgrs && OwnRevokeApplied(s'.mgrs[p].lease.pc)
    requires p in s.mgrs ==> !OwnRevokeApplied(s.mgrs[p].lease.pc)
    ensures p in s.mgrs && LeaseAlive(s, p) && !LeaseAlive(s', p)
  {
    if a :| CanStep(s, a) && s' == Step(s, a) {
      if p in s.mgrs {
        assert MgrInv(s, p);
        StepToApplied(s, a, p);
        RevokeKillsLease(s, p, a.order);
      } else {
        NewProcessHasNoLoop(s, a, p);
      }
    }
  }

  lemma ToAppliedAt(tr: seq<Cluster>, k: nat, p: Pid)
    requires IsRun(tr) && k + 1 < |tr| && p in tr[k + 1].mgrs && OwnRevokeApplied(tr[k + 1].mgrs[p].lease.pc)
    requires p in tr[k].mgrs ==> !OwnRevokeApplied(tr[k].mgrs[p].lease.pc)
    ensures RevokedAt(tr, k, p)
  {
    RunInv(tr, k);
    assert StepAt(tr, k);
    NextToApplied(tr[k], tr[k + 1], p);
  }

  lemma {:induction false} AppliedMeansRevoked(tr: seq<Cluster>, i: nat, p: Pid)
    requires IsRun(tr) && i < |tr| && p in tr[i].mgrs && OwnRevokeApplied(tr[i].mgrs[p].lease.pc)
    ensures exists k: nat :: k < i && RevokedAt(tr, k, p)
  {
    assert 0 < i;
    if p in tr[i - 1].mgrs && OwnRevokeApplied(tr[i - 1].mgrs[p].lease.pc) {
      AppliedMeansRevoked(tr, i - 1, p);
    } else {
      ToAppliedAt(tr, i - 1, p);
    }
  }

  lemma {:induction false} RevokedStaysApplied(tr: seq<Cluster>, k: nat, i: nat, p: Pid)
    requires IsRun(tr) && k < i < |tr| && RevokedAt(tr, k, p)
    requires forall n: nat :: n < i ==> !ReplyLostAt(tr, n, p)
    ensures p in tr[i].mgrs && OwnRevokeApplied(tr[i].mgrs[p].lease.pc)
    decreases i
  {
    if k + 1 < i {
      RevokedStaysApplied(tr, k, i - 1, p);
      EvolvesAt(tr, i - 1);
      assert !ReplyLostAt(tr, i - 1, p);
    }
  }

  /** When the answer of a processed Revoke is lost, the lease is dead and nobody will say so. */
  lemma LostReplyIsNeverSignalled(tr: seq<Cluster>, n: nat, i: nat, p: Pid)
    requires IsRun(tr) && n < i < |tr| && ReplyLostAt(tr, n, p)
    ensures p in tr[i].mgrs && !tr[i].mgrs[p].lease.lost
  {
    RunInv(tr, n);
    assert MgrInv(tr[n], p);
    EvolvesAt(tr, n);
    assert MgrEvolves(tr[n].mgrs[p], tr[n + 1].mgrs[p]);
    ExpiredLeaseIsNeverSignalled(tr, n + 1, i, p);
  }

  /**
   The documented promise of leaseLostCh, exactly: when the keep-alive goroutine has ended, the loss has been
   signalled if and only if the process's own Revoke found the lease alive and its answer was not lost.
   */
  lemma SignalledExactly(tr: seq<Cluster>, i: nat, p: Pid)
    requires IsRun(tr) && i < |tr| && p in tr[i].mgrs && tr[i].mgrs[p].lease.pc.Exited?
    ensures tr[i].mgrs[p].lease.lost
      <==> (exists k: nat :: k < i && RevokedAt(tr, k, p)) && forall n: nat :: n < i ==> !ReplyLostAt(tr, n, p)
  {
    RunInv(tr, i);
    assert MgrInv(tr[i], p);
    if tr[i].mgrs[p].lease.lost {
      AppliedMeansRevoked(tr, i, p);
    }
    if n: nat :| n < i && ReplyLostAt(tr, n, p) {
      LostReplyIsNeverSignalled(tr, n, i, p);
    } else if k: nat :| k < i && RevokedAt(tr, k, p) {
      RevokedStaysApplied(tr, k, i, p);
    }
  }

  /** Whatever answers are lost, a signal is only ever given by a Revoke that found the lease alive. */
  lemma SignalledOnlyByOwnRevoke(tr: seq<Cluster>, i: nat, p: Pid)
    requires IsRun(tr) && i < |tr| && p in tr[i].mgrs && tr[i].mgrs[p].lease.lost
    ensures exists k: nat :: k < i && RevokedAt(tr, k, p)
  {
    RunInv(tr, i);
    assert MgrInv(tr[i], p);
    AppliedMeansRevoked(tr, i, p);
  }

  ghost predicate RunTo(tr: seq<Cluster>, s: Cluster) {
    IsRun(tr) && tr[|tr| - 1] == s
  }

  ghost predicate Reachable(s: Cluster) {
    exists tr :: RunTo(tr, s)
  }

  lemma ExtendRun(tr: seq<Cluster>, s: Cluster, s': Cluster)
    requires RunTo(tr, s) && Next(s, s')
    ensures RunTo(tr + [s'], s')
  {
    var tr' := tr + [s'];
    forall i: nat | i + 1 < |tr'| ensures StepAt(tr', i) {
      if i + 1 < |tr| { assert StepAt(tr, i); }
    }
  }

  lemma Extend(s: Cluster, a: Action)
    requires Reachable(s) && CanStep(s, a)
    ensures Reachable(Step(s, a))
  {
    var tr :| RunTo(tr, s);
    assert Next(s, Step(s, a));
    ExtendRun(tr, s, Step(s, a));
  }

  /** The lease is gone at etcd and the goroutine that watched over it has ended without a signal. */
  ghost predicate UnsignalledLoss(s: Cluster, p: Pid) {
    p in s.mgrs && s.mgrs[p].lease.pc.Exited? && !LeaseAlive(s, p) && !s.mgrs[p].lease.lost
  }

  /** The only process holds the only lease and is about to make its first refresh. */
  ghost predicate Granted(s: Cluster, p: Pid, id: string) {
    && p in s.mgrs && s.mgrs[p] == Mgr(id, KEPT_ALIVE, Joining, false, NotCalled, multiset{}, None)
    && s.store.alive == {1} && s.store.kvs == map[] && s.reg.phase.RegNew?
  }

  /** A lease that was granted and is kept alive. */
  const KEPT_ALIVE: LeaseState := LeaseState(true, Some(1), true, false, false, Selecting, 0, 0)

  lemma GrantedReachable(id: string)
    ensures exists s :: Reachable(s) && Granted(s, 0, id)
  {
    var s := Cluster(EMPTY, map[], map[], Reg(RegNew, map[], 0, 0));
    assert RunTo([s], s);
    var a := NewServer(0, id);
    Extend(s, a);
    var s1 := Step(s, a);
    var b := StartJoin(0, KeptAlive);
    Extend(s1, b);
    assert Granted(Step(s1, b), 0, id);
  }

  /** Such a state is reachable: the lease expires, Revoke then fails, and leaseLostCh stays open. */
  lemma LostLeaseUnsignalled()
    ensures exists s, p :: Reachable(s) && UnsignalledLoss(s, p)
  {
    GrantedReachable("a");
    var s :| Reachable(s) && Granted(s, 0, "a");
    var a := Expire(1, []);
    assert AttachedKeys(s.store, 1, []);
    Extend(s, a);
    var s1 := Step(s, a);
    var b := LeaseStep(0, LeaveSelect);
    Extend(s1, b);
    var s2 := Step(s1, b);
    var c := LeaseStep(0, RevokeReply(false));
    Extend(s2, c);
    assert UnsignalledLoss(Step(s2, c), 0);
  }

  // ---------- a process that has stopped refreshing ----------

  /** The join of the process has failed, or its refresh loop has ended. */
  predicate Silent(m: Mgr) {
    m.join.JoinFailed? || m.join.LoopExited?
  }

  /** A process that has come past the start of its join has started its lease. */
  predicate JoinInv(m: Mgr) {
    !m.join.NotJoined? ==> m.lease.started
  }

  lemma StepKeepsJoin(s: Cluster, a: Action, p: Pid)
    requires CanStep(s, a) && p in s.mgrs && JoinInv(s.mgrs[p]) && MgrInv(s, p)
    ensures p in Step(s, a).mgrs && JoinInv(Step(s, a).mgrs[p])
  {
    StepMgrEvolves(s, a, p);
    if !ByProcess(a, p) { OthersUntouched(s, a, p); }
  }

  lemma NextKeepsJoin(s: Cluster, s': Cluster, p: Pid)
    requires ClusterInv(s) && Next(s, s') && p in s'.mgrs && (p in s.mgrs ==> JoinInv(s.mgrs[p]))
    ensures JoinInv(s'.mgrs[p])
  {
    if a :| CanStep(s, a) && s' == Step(s, a) {
      if p in s.mgrs {
        assert MgrInv(s, p);
        StepKeepsJoin(s, a, p);
      } else {
        NewProcessHasNoLoop(s, a, p);
      }
    }
  }

  lemma {:induction false} JoinOverRun(tr: seq<Cluster>, i: nat, p: Pid)
    requires IsRun(tr) && i < |tr| && p in tr[i].mgrs
    ensures JoinInv(tr[i].mgrs[p])
  {
    if 0 < i {
      if p in tr[i - 1].mgrs { JoinOverRun(tr, i - 1, p); }
      RunInv(tr, i - 1);
      assert StepAt(tr, i - 1);
      NextKeepsJoin(tr[i - 1], tr[i], p);
    }
  }

  lemma StepKeepsSilent(s: Cluster, a: Action, p: Pid)
    requires CanStep(s, a) && p in s.mgrs && Silent(s.mgrs[p]) && s.mgrs[p].lease.started
    ensures p in Step(s, a).mgrs && Silent(Step(s, a).mgrs[p]) && Step(s, a).mgrs[p].inflight <= s.mgrs[p].inflight
  {
    if !ByProcess(a, p) {
      OthersUntouched(s, a, p);
    }
  }

  lemma NextKeepsSilent(s: Cluster, s': Cluster, p: Pid)
    requires Next(s, s') && p in s.mgrs && Silent(s.mgrs[p]) && s.mgrs[p].lease.started
    ensures p in s'.mgrs && Silent(s'.mgrs[p]) && s'.mgrs[p].inflight <= s.mgrs[p].inflight
  {
    if a :| CanStep(s, a) && s' == Step(s, a) {
      StepKeepsSilent(s, a, p);
    }
  }

  /**
   After a failed join or the end of the refresh loop nothing new is ever sent to etcd, only what is in flight can
   arrive.
   */
  lemma {:induction false} EndedLoopIsSilent(tr: seq<Cluster>, i: nat, j: nat, p: Pid)
    requires IsRun(tr) && i <= j < |tr| && p in tr[i].mgrs && Silent(tr[i].mgrs[p])
    ensures p in tr[j].mgrs && Silent(tr[j].mgrs[p]) && tr[j].mgrs[p].inflight <= tr[i].mgrs[p].inflight
    decreases j
  {
    if i < j {
      EndedLoopIsSilent(tr, i, j - 1, p);
      JoinOverRun(tr, j - 1, p);
      assert StepAt(tr, j - 1);
      NextKeepsSilent(tr[j - 1], tr[j], p);
    }
  }

  // ---------- a process that joins, refreshes and leaves ----------

  /** The only process has joined with `info`, and refreshes it. */
  ghost predicate Member(s: Cluster, p: Pid, info: ServerInfo) {
    && p in s.mgrs && s.mgrs[p] == Mgr(info.id, KEPT_ALIVE, Looping, false, NotCalled, multiset{}, Some(info))
    && s.store.alive == {1} && s.store.kvs == map[Key(info.id) := Binding(InfoJSON(info), 1)] && s.reg.phase.RegNew?
  }

  lemma MemberReachable(info: ServerInfo)
    requires info.id != ""
    ensures exists s :: Reachable(s) && Member(s, 0, info)
  {
    GrantedReachable(info.id);
    var s :| Reachable(s) && Granted(s, 0, info.id);
    Extend(s, SendRefresh(0, info));
    s := Step(s, SendRefresh(0, info));
    Extend(s, PutArrives(0, info));
    s := Step(s, PutArrives(0, info));
    Extend(s, JoinReturns(0, true));
    assert Member(Step(s, JoinReturns(0, true)), 0, info);
  }

  /** A refresh is in flight and the process has begun to leave. */
  ghost predicate Leaving(s: Cluster, p: Pid, info: ServerInfo) {
    && p in s.mgrs && s.store.alive == {1} && s.store.kvs == map[Key(info.id) := Binding(InfoJSON(info), 1)]
    && s.mgrs[p]
       == Mgr(info.id, KEPT_ALIVE.(closed := true), Looping, true, Awaiting, multiset{info}, Some(info))
  }

  lemma LeavingReachable(info: ServerInfo)
    requires info.id != ""
    ensures exists s :: Reachable(s) && Leaving(s, 0, info)
  {
    MemberReachable(info);
    var s :| Reachable(s) && Member(s, 0, info);
    Extend(s, SendRefresh(0, info));
    s := Step(s, SendRefresh(0, info));
    Extend(s, LeaveCalled(0));
    assert Leaving(Step(s, LeaveCalled(0)), 0, info);
  }

  /**
   LeaveCluster has returned nil, the refresh loop has ended, no key is left, and a refresh of the process can still
   arrive at etcd.
   */
  ghost predicate LeftInFlight(s: Cluster, p: Pid, info: ServerInfo) {
    && p in s.mgrs && s.mgrs[p].leave.ReturnedNil? && s.mgrs[p].join.LoopExited?
    && s.store.kvs == map[] && CanStep(s, PutArrives(p, info))
  }

  /** LeaveCluster can return nil with a refresh in flight; the key is then gone, and the refresh has yet to arrive. */
  lemma LeftReachable(info: ServerInfo)
    requires info.id != ""
    ensures exists s :: Reachable(s) && LeftInFlight(s, 0, info)
  {
    LeavingReachable(info);
    var s :| Reachable(s) && Leaving(s, 0, info);
    Extend(s, LeaseStep(0, LeaveSelect));
    s := Step(s, LeaseStep(0, LeaveSelect));
    var order := [Key(info.id)];
    assert AttachedKeys(s.store, 1, order);
    Extend(s, RevokeArrives(0, order));
    s := Step(s, RevokeArrives(0, order));
    assert s.store.kvs == map[];
    SignalledThenLeft(s, info);
  }

  lemma SignalledThenLeft(s: Cluster, info: ServerInfo)
    requires Reachable(s) && 0 in s.mgrs && s.store.kvs == map[]
    requires s.mgrs[0].lease.pc == Revoking(true) && s.mgrs[0].lease.id.Some? && s.mgrs[0].leave.Awaiting?
    requires info in s.mgrs[0].inflight && s.mgrs[0].join.Looping?
    ensures exists s' :: Reachable(s') && LeftInFlight(s', 0, info)
  {
    Extend(s, LeaseStep(0, RevokeReply(true)));
    var t := Step(s, LeaseStep(0, RevokeReply(true)));
    Extend(t, LeaseStep(0, CloseLost));
    t := Step(t, LeaseStep(0, CloseLost));
    Extend(t, LoopExits(0));
    t := Step(t, LoopExits(0));
    Extend(t, LeaveReturns(0));
    t := Step(t, LeaveReturns(0));
    assert LeftInFlight(t, 0, info);
  }

  /** A gateway that starts after the process has joined and watches from there. */
  lemma WatchedMemberReachable(info: ServerInfo)
    requires info.id != ""
    ensures exists s :: Reachable(s) && s.reg.phase.RegWatching? && Cached(s.reg.cache, info.id) == Some(info)
  {
    MemberReachable(info);
    var s :| Reachable(s) && Member(s, 0, info);
    var k, reply := Key(info.id), [KV(Key(info.id), InfoJSON(info))];
    assert KV(k, InfoJSON(info)) in reply && InNamespace(k);
    assert GetReply(Contents(s.store.kvs), reply);
    Extend(s, Snapshot(reply));
    s := Step(s, Snapshot(reply));
    assert Load(map[], reply) == Load(map[info.id := info], reply[1..]);
    Extend(s, OpenWatch);
    assert Step(s, OpenWatch).reg.cache == map[info.id := info];
  }

  // ---------- membership ----------

  /**
   Once LeaveCluster has returned nil, whatever is under the process's key in any later state was written by another
   process with the same ID.
   */
  lemma NoResurrection(tr: seq<Cluster>, i: nat, j: nat, p: Pid)
    requires IsRun(tr) && i <= j < |tr| && p in tr[i].mgrs && tr[i].mgrs[p].leave.ReturnedNil?
    ensures p in tr[j].mgrs
    ensures Key(tr[j].mgrs[p].id) in tr[j].store.kvs ==> !UniqueID(tr[j], p)
  {
    RunEvolves(tr, i, j);
    RunInv(tr, j);
    var s := tr[j];
    var k := Key(s.mgrs[p].id);
    assert MgrInv(s, p);
    if k in s.store.kvs {
      assert BindingInv(s, k) && InNamespace(k);
      var q := s.holder[s.store.kvs[k].lease];
      KeyInjective(s.mgrs[q].id, s.mgrs[p].id);
      assert q != p;
    }
  }

  /** The put of a refresh that is still in flight when LeaveCluster returned nil is rejected. */
  lemma LateRefreshRejected(tr: seq<Cluster>, i: nat, j: nat, p: Pid, info: ServerInfo)
    requires IsRun(tr) && i <= j < |tr| && p in tr[i].mgrs && tr[i].mgrs[p].leave.ReturnedNil?
    requires CanStep(tr[j], PutArrives(p, info))
    ensures Step(tr[j], PutArrives(p, info)).store == tr[j].store
  {
    RunEvolves(tr, i, j);
    RunInv(tr, j);
    assert MgrInv(tr[j], p);
  }

  /** The process is listed with `info`: its last accepted refresh, under a lease that etcd still holds. */
  ghost predicate RefreshedAlive(s: Cluster, p: Pid, id: string, info: ServerInfo) {
    p in s.mgrs && s.mgrs[p].id == id && s.mgrs[p].accepted == Some(info) && LeaseAlive(s, p)
  }

  /** With distinct IDs, the namespace holds exactly the servers whose last accepted refresh is under a live lease. */
  lemma ExactMembership(tr: seq<Cluster>, i: nat, id: string, info: ServerInfo)
    requires IsRun(tr) && i < |tr|
    requires forall p :: p in tr[i].mgrs ==> UniqueID(tr[i], p)
    ensures Stored(Contents(tr[i].store.kvs), id) == Some(info) <==> exists p :: RefreshedAlive(tr[i], p, id, info)
    ensures forall k :: k in tr[i].store.kvs && InNamespace(k) ==> WellKeyed(k, tr[i].store.kvs[k].value)
  {
    var s := tr[i];
    RunInv(tr, i);
    forall k | k in s.store.kvs && InNamespace(k) ensures WellKeyed(k, s.store.kvs[k].value) {
      assert BindingInv(s, k);
      assert MgrInv(s, s.holder[s.store.kvs[k].lease]);
    }
    var k := Key(id);
    assert InNamespace(k);
    if k in s.store.kvs {
      assert BindingInv(s, k);
      var q := s.holder[s.store.kvs[k].lease];
      KeyInjective(s.mgrs[q].id, id);
      assert RefreshedAlive(s, q, id, s.mgrs[q].accepted.value);
      forall p | RefreshedAlive(s, p, id, info) ensures p == q {
        assert UniqueID(s, p);
      }
    }
    forall p | RefreshedAlive(s, p, id, info) ensures k in s.store.kvs {
      assert Listed(s, p) && UniqueID(s, p);
    }
  }

  // ---------- the gateway's cache ----------

  /** A watch opened at `start` begins right after the last entry below `start`: no gap, no overlap. */
  lemma {:induction false} WatchFromExact(log: seq<Logged>, rev: nat, start: nat, k: nat)
    requires Ordered(log, rev) && k < |log|
    ensures k < WatchFrom(log, start) <==> log[k].rev < start
    decreases |log|
  {
    var n := |log| - 1;
    if start <= log[n].rev && k < n {
      WatchFromExact(log[..n], rev, start, k);
    }
  }

  /**
   In every state after Start, the cache is the projection of the namespace after a prefix of the
   event log that covers the snapshot; when the watch has caught up it is the current store.
   */
  lemma CacheAgreement(tr: seq<Cluster>, i: nat)
    requires IsRun(tr) && i < |tr|
    ensures !tr[i].reg.phase.RegFailed?
    ensures tr[i].reg.phase.RegWatching? || tr[i].reg.phase.RegStopped? ==>
      && tr[i].reg.upto <= |tr[i].store.log|
      && Agrees(tr[i].reg.cache, Replay(tr[i].store.log[..tr[i].reg.upto]))
      && (forall k :: 0 <= k < |tr[i].store.log| && tr[i].store.log[k].rev < tr[i].reg.startRev ==> k < tr[i].reg.upto)
      && (tr[i].reg.upto == |tr[i].store.log| ==> Agrees(tr[i].reg.cache, Contents(tr[i].store.kvs)))
  {
    var s := tr[i];
    RunInv(tr, i);
    forall k | 0 <= k < |s.store.log|
      ensures k < WatchFrom(s.store.log, s.reg.startRev) <==> s.store.log[k].rev < s.reg.startRev
    {
      WatchFromExact(s.store.log, s.store.rev, s.reg.startRev, k);
    }
    assert s.store.log[..|s.store.log|] == s.store.log;
  }

  /** The applied prefix only grows, over a log that only grows; a stopped watch freezes the cache. */
  lemma AppliedPrefixGrows(tr: seq<Cluster>, i: nat, j: nat)
    requires IsRun(tr) && i <= j < |tr| && (tr[i].reg.phase.RegWatching? || tr[i].reg.phase.RegStopped?)
    ensures tr[j].reg.phase.RegWatching? || tr[j].reg.phase.RegStopped?
    ensures tr[i].reg.upto <= tr[j].reg.upto
    ensures tr[i].reg.upto <= |tr[i].store.log| && tr[j].reg.upto <= |tr[j].store.log|
    ensures tr[i].store.log[..tr[i].reg.upto] <= tr[j].store.log[..tr[j].reg.upto]
    ensures tr[i].reg.phase.RegStopped? ==> tr[j].reg == tr[i].reg
  {
    RunEvolves(tr, i, j);
    RunInv(tr, i);
    RunInv(tr, j);
    assert tr[j].store.log[..|tr[i].store.log|] == tr[i].store.log;
  }

  /** The events of the namespace in a stretch of the log: what one watch response carries. */
  function Watched(log: seq<Logged>): (es: seq<Event>)
    ensures forall e :: e in es ==> InNamespace(e.key)
  {
    if log == [] then []
    else
      var rest := Watched(log[1..]);
      if InNamespace(log[0].event.key) then [log[0].event] + rest else rest
  }

  function DeliverTo(reg: Reg, log: seq<Logged>, n: nat): Reg
    requires reg.upto <= n <= |log|
    decreases n - reg.upto
  {
    if reg.upto == n then reg else DeliverTo(DeliverOne(reg, log), log, n)
  }

  /** The registry's inner loop over a response does what the machine's single deliveries do. */
  lemma {:induction false} ResponseRefinesDeliveries(reg: Reg, log: seq<Logged>, n: nat)
    requires reg.upto <= n <= |log|
    ensures DeliverTo(reg, log, n).cache == CacheApplyAll(reg.cache, Watched(log[reg.upto..n]))
    ensures DeliverTo(reg, log, n).upto == n
    decreases n - reg.upto
  {
    if reg.upto < n {
      ResponseRefinesDeliveries(DeliverOne(reg, log), log, n);
      assert log[reg.upto..n][1..] == log[reg.upto + 1..n];
    }
  }

  // ---------- the watch loop over many responses ----------

  /**
   The first responses that the watch loop takes carry the log from cut to cut: response i the events of the namespace
   from cuts[i] up to cuts[i + 1]. What follows them is not a response.
   */
  ghost predicate CarriesLog(inputs: seq<WatchInput>, log: seq<Logged>, cuts: seq<nat>) {
    && |cuts| > 0 && Responses(inputs, |cuts| - 1)
    && (forall i, j :: 0 <= i <= j < |cuts| ==> cuts[i] <= cuts[j] <= |log|)
    && (forall i :: 0 <= i < |cuts| - 1 ==> inputs[i].events == Watched(log[cuts[i]..cuts[i + 1]]))
  }

  lemma {:induction false} DeliveriesCompose(reg: Reg, log: seq<Logged>, m: nat, n: nat)
    requires reg.upto <= m <= n <= |log|
    ensures DeliverTo(reg, log, m).upto == m && DeliverTo(DeliverTo(reg, log, m), log, n) == DeliverTo(reg, log, n)
    decreases m - reg.upto
  {
    if reg.upto < m {
      DeliveriesCompose(DeliverOne(reg, log), log, m, n);
    }
  }

  /**
   The whole watch loop of the registry does what the machine's single deliveries do, up to the end of the last response
   before the first other input; what comes after that input changes nothing.
   */
  lemma {:induction false} WatchLoopRefinesDeliveries(reg: Reg, log: seq<Logged>, inputs: seq<WatchInput>,
                                                      cuts: seq<nat>)
    requires FromNamespace(inputs) && CarriesLog(inputs, log, cuts) && cuts[0] == reg.upto
    ensures WatchRun(reg.cache, inputs) == DeliverTo(reg, log, cuts[|cuts| - 1]).cache
    decreases |cuts|
  {
    if 1 < |cuts| {
      var reg1, rest := DeliverTo(reg, log, cuts[1]), inputs[1..];
      ResponseRefinesDeliveries(reg, log, cuts[1]);
      DeliveriesCompose(reg, log, cuts[1], cuts[|cuts| - 1]);
      assert inputs[0] in inputs && inputs[0].events == Watched(log[cuts[0]..cuts[1]]);
      assert CarriesLog(rest, log, cuts[1..]);
      WatchLoopRefinesDeliveries(reg1, log, rest, cuts[1..]);
    }
  }

  lemma {:induction false} DeliveriesAgree(reg: Reg, log: seq<Logged>, n: nat)
    requires reg.upto <= n <= |log| && LogInv(log) && Agrees(reg.cache, Replay(log[..reg.upto]))
    ensures Agrees(DeliverTo(reg, log, n).cache, Replay(log[..n]))
    decreases n - reg.upto
  {
    if reg.upto < n {
      DeliveryAgrees(reg, log);
      DeliveriesAgree(DeliverOne(reg, log), log, n);
    }
  }

  /** So an agreeing cache agrees with the namespace at the last cut: a server put and then deleted is gone. */
  lemma WatchLoopAgrees(reg: Reg, log: seq<Logged>, inputs: seq<WatchInput>, cuts: seq<nat>)
    requires FromNamespace(inputs) && CarriesLog(inputs, log, cuts) && cuts[0] == reg.upto
    requires LogInv(log) && Agrees(reg.cache, Replay(log[..reg.upto]))
    ensures Agrees(WatchRun(reg.cache, inputs), Replay(log[..cuts[|cuts| - 1]]))
  {
    WatchLoopRefinesDeliveries(reg, log, inputs, cuts);
    DeliveriesAgree(reg, log, cuts[|cuts| - 1]);
  }
}
