/**
 The leased etcd client: its state as a value, the atomic steps of Start, the keep-alive
 goroutine and Close, and the class whose methods perform those steps.
 */
module Lease {
  import opened Common
  import opened Etcd

  /** Where the keep-alive goroutine is. `applied` says whether etcd has processed its Revoke. */
  datatype KeepAlivePc =
    | NoLoop
    | Selecting
    | Revoking(applied: bool)
    | Closing
    | Exited(revoked: bool)

  /**
   `ok` is leaseOK; `lost` and `closed` say that leaseLostCh and closeCh have been closed;
   `revokes` and `lostCloses` count the calls of Revoke and of close(leaseLostCh).
   */
  datatype LeaseState = LeaseState(
    started: bool,
    id: Option<LeaseID>,
    ok: bool,
    lost: bool,
    closed: bool,
    pc: KeepAlivePc,
    revokes: nat,
    lostCloses: nat)

  const NEW_LEASE: LeaseState := LeaseState(false, None, false, false, false, NoLoop, 0, 0)

  datatype LeaseAction =
    | Start(granted: Option<LeaseID>, keepAliveOk: bool)
    | LeaveSelect
    | RevokeApplied
    | RevokeReply(success: bool)
    | CloseLost
    | Close

  predicate Enabled(ls: LeaseState, a: LeaseAction) {
    match a
    case Start(_, _) => !ls.started
    case LeaveSelect => ls.pc.Selecting?
    case RevokeApplied => ls.pc == Revoking(false)
    case RevokeReply(success) => ls.pc.Revoking? && (success ==> ls.pc.applied)
    case CloseLost => ls.pc.Closing?
    case Close => !ls.closed
  }

  function Apply(ls: LeaseState, a: LeaseAction): LeaseState {
    match a
    case Start(granted, keepAliveOk) =>
      if granted.None? then ls.(started := true)
      else if !keepAliveOk then ls.(started := true, id := granted)
      else ls.(started := true, id := granted, ok := true, pc := Selecting)
    case LeaveSelect =>
      if !ls.ok then ls.(pc := Exited(false))
      else ls.(ok := false, pc := Revoking(false), revokes := ls.revokes + 1)
    case RevokeApplied => ls.(pc := Revoking(true))
    case RevokeReply(success) => ls.(pc := if success then Closing else Exited(false))
    case CloseLost => ls.(lost := true, lostCloses := ls.lostCloses + 1, pc := Exited(true))
    case Close => ls.(closed := true)
  }

  ghost predicate LeaseInv(ls: LeaseState) {
    && (ls.ok <==> ls.pc.Selecting?)
    && (ls.lost <==> ls.pc == Exited(true))
    && ls.lostCloses == (if ls.lost then 1 else 0)
    && ls.revokes == (if ls.pc.NoLoop? || ls.pc.Selecting? then 0 else 1)
    && (!ls.started ==> ls.pc.NoLoop? && ls.id.None?)
    && (!ls.pc.NoLoop? ==> ls.id.Some?)
  }

  /** The steps that follow the select of the keep-alive loop, given the answer of Revoke. */
  function Invalidated(ls: LeaseState, revokeOk: bool): LeaseState {
    var begun := Apply(ls, LeaveSelect);
    if !ls.ok then begun
    else if revokeOk then Apply(Apply(Apply(begun, RevokeApplied), RevokeReply(true)), CloseLost)
    else Apply(begun, RevokeReply(false))
  }

  /** What one select of the keep-alive loop receives. */
  datatype Received = KeepAliveResponse | ChannelClosed | CloseSeen

  /** The keep-alive loop: responses change nothing, anything else invalidates the lease once. */
  function KeepAliveRun(ls: LeaseState, inputs: seq<Received>, revokeOk: bool): LeaseState {
    if inputs == [] then ls
    else if inputs[0].KeepAliveResponse? then KeepAliveRun(ls, inputs[1..], revokeOk)
    else Invalidated(ls, revokeOk)
  }

  /**
   The keep-alive loop ignores responses and invalidates the lease, once, at the first other input of whatever kind.
   */
  lemma {:induction false} KeepAliveEndsOnce(ls: LeaseState, inputs: seq<Received>, revokeOk: bool)
    requires LeaseInv(ls) && ls.pc.Selecting?
    ensures (forall i :: 0 <= i < |inputs| ==> inputs[i].KeepAliveResponse?) ==>
      KeepAliveRun(ls, inputs, revokeOk) == ls
    ensures (exists i :: 0 <= i < |inputs| && !inputs[i].KeepAliveResponse?) ==>
      var ended := KeepAliveRun(ls, inputs, revokeOk);
      && !ended.ok && ended.revokes == 1 && ended.pc == Exited(revokeOk) && (ended.lost <==> revokeOk)
      && ended.id == ls.id && ended.closed == ls.closed
    decreases |inputs|
  {
    if inputs != [] && inputs[0].KeepAliveResponse? {
      KeepAliveEndsOnce(ls, inputs[1..], revokeOk);
      assert forall i :: 1 <= i < |inputs| ==> inputs[i] == inputs[1..][i - 1];
    }
  }

  /** Every step keeps the invariant, never turns leaseOK back on and never reopens a channel. */
  lemma StepIsSafe(ls: LeaseState, a: LeaseAction)
    requires LeaseInv(ls) && Enabled(ls, a)
    ensures LeaseInv(Apply(ls, a))
    ensures ls.started && !ls.ok ==> !Apply(ls, a).ok
    ensures ls.lost ==> Apply(ls, a).lost
    ensures ls.started ==> Apply(ls, a).started && Apply(ls, a).id == ls.id
    ensures ls.revokes <= Apply(ls, a).revokes <= 1 && ls.lostCloses <= Apply(ls, a).lostCloses <= 1
    ensures Apply(ls, a).lost && !ls.lost ==> ls.pc.Closing?
    ensures Apply(ls, a).pc.Closing? && !ls.pc.Closing? ==> ls.pc == Revoking(true)
  {
  }

  class LeasedClient {
    var leaseID: Option<LeaseID>
    var leaseOK: bool
    var leaseLostClosed: bool
    var closeClosed: bool
    ghost var st: LeaseState

    ghost predicate Valid()
      reads this
    {
      && st.id == leaseID && st.ok == leaseOK
      && st.lost == leaseLostClosed && st.closed == closeClosed
      && LeaseInv(st)
    }

    constructor ()
      ensures Valid() && st == NEW_LEASE
    {
      leaseID, leaseOK, leaseLostClosed, closeClosed := None, false, false, false;
      st := NEW_LEASE;
    }

    method StartLease(granted: Option<LeaseID>, keepAliveOk: bool) returns (r: Result<()>)
      requires Valid() && !st.started
      modifies this
      ensures Valid() && st == Apply(old(st), Start(granted, keepAliveOk))
      ensures r.Ok? <==> granted.Some? && keepAliveOk
      ensures leaseID == granted && (leaseOK <==> r.Ok?) && st.pc == if r.Ok? then Selecting else NoLoop
      ensures closeClosed == old(closeClosed) && !leaseLostClosed
    {
      st := Apply(st, Start(granted, keepAliveOk));
      if granted.None? {
        return Err("granting lease");
      }
      leaseID := granted;
      if !keepAliveOk {
        return Err("keeping lease alive");
      }
      leaseOK := true;
      return Ok(());
    }

    /** Runs the keep-alive loop over what its selects receive; `revokeOk` is the answer of Revoke. */
    method KeepAlive(inputs: seq<Received>, revokeOk: bool)
      requires Valid() && st.pc.Selecting?
      modifies this
      ensures Valid() && st == KeepAliveRun(old(st), inputs, revokeOk)
      ensures (forall i :: 0 <= i < |inputs| ==> inputs[i].KeepAliveResponse?) ==> st == old(st)
      ensures (exists i :: 0 <= i < |inputs| && !inputs[i].KeepAliveResponse?) ==>
        !leaseOK && st.revokes == 1 && st.pc == Exited(revokeOk) && (leaseLostClosed <==> revokeOk)
    {
      KeepAliveEndsOnce(st, inputs, revokeOk);
      var i := 0;
      while i < |inputs|
        invariant 0 <= i <= |inputs| && Valid() && st == old(st)
        invariant KeepAliveRun(st, inputs[i..], revokeOk) == KeepAliveRun(old(st), inputs, revokeOk)
      {
        if !inputs[i].KeepAliveResponse? {
          var _ := InvalidateLease(revokeOk);
          return;
        }
        i := i + 1;
      }
    }

    method InvalidateLease(revokeOk: bool) returns (r: Result<()>)
      requires Valid()
      modifies this
      ensures Valid() && st == if old(leaseOK) then Invalidated(old(st), revokeOk) else old(st)
      ensures r.Ok? <==> old(leaseOK) && revokeOk
      ensures leaseLostClosed <==> old(leaseLostClosed) || r.Ok?
      ensures !leaseOK && st.revokes == old(st.revokes) + if old(leaseOK) then 1 else 0
      ensures leaseID == old(leaseID) && closeClosed == old(closeClosed)
    {
      if !leaseOK {
        return Err("invalidating lease which is not valid");
      }
      st := Invalidated(st, revokeOk);
      leaseOK := false;
      if !revokeOk {
        return Err("revoking lease");
      }
      leaseLostClosed := true;
      return Ok(());
    }

    method CloseClient()
      requires Valid() && !closeClosed
      modifies this
      ensures Valid() && st == Apply(old(st), Close)
      ensures closeClosed && leaseID == old(leaseID)
      ensures leaseOK == old(leaseOK) && leaseLostClosed == old(leaseLostClosed)
    {
      closeClosed := true;
      st := Apply(st, Close);
    }

    /** The select at the end of Close: ready when leaseLostCh is closed or the context is done. */
    method AwaitLost(timedOut: bool) returns (r: Result<()>)
      requires Valid() && (leaseLostClosed || timedOut)
      ensures r.Ok? ==> leaseLostClosed
      ensures r.Err? ==> timedOut
    {
      if leaseLostClosed && !timedOut {
        return Ok(());
      }
      return Err("timed out waiting for the lease to be revoked");
    }
  }
}
