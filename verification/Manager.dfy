/** The writer side of membership: the class that joins, refreshes and leaves, tied to the steps of the machine. */
module Manager {
  import opened Common
  import opened Etcd
  import opened Lease
  import opened Registry
  import Membership

  /** The etcd server as the client sees it. */
  class EtcdServer {
    var s: Store

    constructor ()
      ensures s == EMPTY
    {
      s := EMPTY;
    }
  }

  /** What becomes of a Put on the wire: it is answered, or it fails before or after etcd has handled it. */
  datatype Wire = Answered | RequestLost | ReplyLost

  /** refreshInfo: what it leaves in etcd and whether it succeeds. `info` is the answer of serverInfoFn. */
  function Refreshed(s: Store, lease: LeaseID, info: Result<ServerInfo>, wire: Wire): (Store, bool) {
    if info.Err? || info.value.id == "" || wire.RequestLost? || !Accepts(s, lease) then (s, false)
    else (Put(s, Key(info.value.id), InfoJSON(info.value), lease), wire.Answered?)
  }

  /** What one select of the refresh loop receives. */
  datatype LoopInput = Tick(info: Result<ServerInfo>, wire: Wire) | LeaseLost | CloseRequested

  /** The refresh loop: failed refreshes are skipped, the loop ends at the first input that is no tick. */
  function RefreshRun(s: Store, lease: LeaseID, inputs: seq<LoopInput>): Store
    decreases |inputs|
  {
    if inputs == [] || !inputs[0].Tick? then s
    else RefreshRun(Refreshed(s, lease, inputs[0].info, inputs[0].wire).0, lease, inputs[1..])
  }

  /** A refresh that gets to its Put is the machine's send of it, followed by its arrival at etcd or by its loss. */
  lemma RefreshRefinesSteps(s: Membership.Cluster, p: Membership.Pid, info: ServerInfo, wire: Wire)
    requires Membership.CanStep(s, Membership.SendRefresh(p, info)) && s.mgrs[p].lease.id.Some?
    ensures var sent := Membership.Step(s, Membership.SendRefresh(p, info));
            var a := if wire.RequestLost? then Membership.PutDropped(p, info) else Membership.PutArrives(p, info);
            && Membership.CanStep(sent, a)
            && var (store, ok) := Refreshed(s.store, s.mgrs[p].lease.id.value, Ok(info), wire);
               && Membership.Step(sent, a).store == store
               && (ok <==> a.PutArrives? && Accepts(s.store, s.mgrs[p].lease.id.value) && wire.Answered?)
               && (ok ==> Membership.Step(sent, a).mgrs[p].accepted == Some(info))
  {
  }

  /** A dead lease never writes again: the loop leaves etcd as it is, whatever it is told to write. */
  lemma {:induction false} DeadLeaseWritesNothing(s: Store, lease: LeaseID, inputs: seq<LoopInput>)
    requires !Accepts(s, lease)
    ensures RefreshRun(s, lease, inputs) == s
    decreases |inputs|
  {
    if inputs != [] && inputs[0].Tick? {
      DeadLeaseWritesNothing(s, lease, inputs[1..]);
    }
  }

  /** The refresh loop makes exactly n turns. */
  ghost predicate Turns(inputs: seq<LoopInput>, n: nat) {
    n <= |inputs| && (forall i :: 0 <= i < n ==> inputs[i].Tick?) && (n == |inputs| || !inputs[n].Tick?)
  }

  /** A turn whose put reaches etcd. */
  predicate Puts(t: LoopInput) {
    t.Tick? && t.info.Ok? && t.info.value.id != "" && !t.wire.RequestLost?
  }

  /** A key that no turn of the loop puts stays as it was. */
  lemma {:induction false} LoopLeavesOthers(s: Store, lease: LeaseID, inputs: seq<LoopInput>, n: nat, key: string)
    requires Turns(inputs, n)
    requires forall i :: 0 <= i < n && Puts(inputs[i]) ==> Key(inputs[i].info.value.id) != key
    ensures var s' := RefreshRun(s, lease, inputs);
            (key in s'.kvs <==> key in s.kvs) && (key in s.kvs ==> s'.kvs[key] == s.kvs[key])
    decreases |inputs|
  {
    if 0 < n {
      assert Turns(inputs[1..], n - 1);
      LoopLeavesOthers(Refreshed(s, lease, inputs[0].info, inputs[0].wire).0, lease, inputs[1..], n - 1, key);
    }
  }

  /**
   Under a live lease the key of a server holds what the last turn that put it has put, up to the first other input.
   */
  lemma {:induction false} LoopStoresLast(s: Store, lease: LeaseID, inputs: seq<LoopInput>, n: nat, j: nat)
    requires Accepts(s, lease) && Turns(inputs, n) && j < n && Puts(inputs[j])
    requires forall i :: j < i < n && Puts(inputs[i]) ==> inputs[i].info.value.id != inputs[j].info.value.id
    ensures var info := inputs[j].info.value;
            var s' := RefreshRun(s, lease, inputs);
            Key(info.id) in s'.kvs && s'.kvs[Key(info.id)] == Binding(InfoJSON(info), lease)
    decreases |inputs|
  {
    var s1 := Refreshed(s, lease, inputs[0].info, inputs[0].wire).0;
    var rest := inputs[1..];
    assert Turns(rest, n - 1);
    assert forall i :: 0 < i < |inputs| ==> inputs[i] == rest[i - 1];
    if 0 < j {
      LoopStoresLast(s1, lease, rest, n - 1, j - 1);
    } else {
      var id := inputs[0].info.value.id;
      forall i | 0 <= i < n - 1 && Puts(rest[i]) ensures Key(rest[i].info.value.id) != Key(id) {
        if Key(rest[i].info.value.id) == Key(id) { KeyInjective(rest[i].info.value.id, id); }
      }
      LoopLeavesOthers(s1, lease, rest, n - 1, Key(id));
    }
  }

  class ClusterManager {
    const lease: LeasedClient
    const etcd: EtcdServer
    var closeClosed: bool

    constructor (etcd: EtcdServer)
      ensures lease.Valid() && lease.st == NEW_LEASE && fresh(lease) && this.etcd == etcd && !closeClosed
    {
      var l := new LeasedClient();
      this.lease, this.etcd, closeClosed := l, etcd, false;
    }

    /** `outcome` is what becomes of the grant of the lease and of its keep-alive. */
    method JoinCluster(outcome: Membership.StartOutcome, info: Result<ServerInfo>, wire: Wire) returns (r: Result<()>)
      requires lease.Valid() && !lease.st.started
      modifies lease, etcd
      ensures lease.Valid()
      ensures var known := !outcome.GrantRefused? && !outcome.GrantReplyLost?;
              var id := if known then Some(old(etcd.s.nextLease)) else None;
              lease.st == Apply(old(lease.st), Start(id, outcome.KeptAlive?))
      ensures var s := if outcome.GrantRefused? then old(etcd.s) else Grant(old(etcd.s));
              if outcome.KeptAlive? then (etcd.s, r.Ok?) == Refreshed(s, old(etcd.s.nextLease), info, wire)
              else etcd.s == s && r.Err?
      ensures r.Ok? <==> outcome.KeptAlive? && info.Ok? && info.value.id != "" && wire.Answered?
      ensures r.Ok? ==>
        etcd.s == Put(Grant(old(etcd.s)), Key(info.value.id), InfoJSON(info.value), old(etcd.s.nextLease))
    {
      var id := etcd.s.nextLease;
      if !outcome.GrantRefused? {
        etcd.s := Grant(etcd.s);
      }
      var granted := if outcome.GrantRefused? || outcome.GrantReplyLost? then None else Some(id);
      var started := lease.StartLease(granted, outcome.KeptAlive?);
      if started.Err? {
        return Err("acquiring lease");
      }
      r := RefreshInfo(info, wire);
    }

    method RefreshInfo(info: Result<ServerInfo>, wire: Wire) returns (r: Result<()>)
      requires lease.leaseID.Some?
      modifies etcd
      ensures (etcd.s, r.Ok?) == Refreshed(old(etcd.s), lease.leaseID.value, info, wire)
      ensures r.Ok?
        <==> info.Ok? && info.value.id != "" && wire.Answered? && Accepts(old(etcd.s), lease.leaseID.value)
      ensures info.Err? || info.value.id == "" || wire.RequestLost? || !Accepts(old(etcd.s), lease.leaseID.value)
        ==> etcd.s == old(etcd.s)
      ensures info.Ok? && info.value.id != "" && !wire.RequestLost? && Accepts(old(etcd.s), lease.leaseID.value)
        ==> etcd.s == Put(old(etcd.s), Key(info.value.id), InfoJSON(info.value), lease.leaseID.value)
    {
      if info.Err? {
        return Err("getting server info");
      }
      if info.value.id == "" {
        return Err("empty server id provided");
      }
      if wire.RequestLost? || !Accepts(etcd.s, lease.leaseID.value) {
        return Err("putting key");
      }
      etcd.s := Put(etcd.s, NAMESPACE + info.value.id, InfoJSON(info.value), lease.leaseID.value);
      if wire.ReplyLost? {
        return Err("putting key");
      }
      return Ok(());
    }

    method RefreshInfoLoop(inputs: seq<LoopInput>)
      requires lease.leaseID.Some?
      modifies etcd
      ensures etcd.s == RefreshRun(old(etcd.s), lease.leaseID.value, inputs)
    {
      var i := 0;
      while i < |inputs|
        invariant 0 <= i <= |inputs| && lease.leaseID.Some?
        invariant RefreshRun(etcd.s, lease.leaseID.value, inputs[i..])
                  == RefreshRun(old(etcd.s), lease.leaseID.value, inputs)
      {
        if !inputs[i].Tick? {
          return;
        }
        var _ := RefreshInfo(inputs[i].info, inputs[i].wire);
        i := i + 1;
      }
    }

    /** The part of LeaveCluster before it blocks; it then returns what `lease.AwaitLost` returns. */
    method LeaveCluster()
      requires lease.Valid() && !closeClosed && !lease.closeClosed
      modifies this, lease
      ensures closeClosed && lease.Valid() && lease.st == Apply(old(lease.st), Close)
      ensures lease.closeClosed
      ensures lease.leaseOK == old(lease.leaseOK) && lease.leaseLostClosed == old(lease.leaseLostClosed)
    {
      closeClosed := true;
      lease.CloseClient();
    }
  }
}
