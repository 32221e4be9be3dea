/**
 The contract of etcd that the membership code relies on: a revisioned key space, leases
 that own keys, and an event log that a watch reads in order.
 */
module Etcd {
  import opened Common

  type LeaseID = nat

  datatype ServerInfo = ServerInfo(id: string, grpcAddress: string, httpAddress: string)

  /** Stored bytes: the JSON of a ServerInfo, or bytes that do not decode as one. */
  datatype Value = InfoJSON(info: ServerInfo) | OtherBytes(tag: int)

  function Unmarshall(v: Value): Option<ServerInfo> {
    match v
    case InfoJSON(info) => Some(info)
    case OtherBytes(_) => None
  }

  datatype Event = PutEvent(key: string, value: Value) | DeleteEvent(key: string)

  datatype Logged = Logged(rev: nat, event: Event)

  datatype Binding = Binding(value: Value, lease: LeaseID)

  /** `alive` holds the granted leases that are neither revoked nor expired; lease 0 means "no lease". */
  datatype Store = Store(
    kvs: map<string, Binding>,
    alive: set<LeaseID>,
    nextLease: LeaseID,
    rev: nat,
    log: seq<Logged>)

  const NO_LEASE: LeaseID := 0

  const EMPTY: Store := Store(map[], {}, 1, 1, [])

  function Grant(s: Store): Store {
    s.(alive := s.alive + {s.nextLease}, nextLease := s.nextLease + 1)
  }

  /** A put that names a lease is accepted only while that lease is alive. */
  predicate Accepts(s: Store, lease: LeaseID) {
    lease == NO_LEASE || lease in s.alive
  }

  /** An accepted put: the key moves to the new lease and leaves the old one. */
  function Put(s: Store, key: string, value: Value, lease: LeaseID): Store {
    s.(kvs := s.kvs[key := Binding(value, lease)],
       rev := s.rev + 1,
       log := s.log + [Logged(s.rev + 1, PutEvent(key, value))])
  }

  /** `order` lists the keys attached to the lease, each once. */
  ghost predicate AttachedKeys(s: Store, lease: LeaseID, order: seq<string>) {
    && (forall k :: k in order <==> k in s.kvs && s.kvs[k].lease == lease)
    && (forall i, j :: 0 <= i < j < |order| ==> order[i] != order[j])
  }

  function Deletes(rev: nat, keys: seq<string>): seq<Logged> {
    seq(|keys|, i requires 0 <= i < |keys| => Logged(rev, DeleteEvent(keys[i])))
  }

  function ToSet(keys: seq<string>): set<string> {
    set k | k in keys
  }

  /** Revocation and expiry: the lease dies and its keys are deleted under one new revision. */
  function Kill(s: Store, lease: LeaseID, order: seq<string>): Store {
    s.(kvs := s.kvs - ToSet(order),
       alive := s.alive - {lease},
       rev := if order == [] then s.rev else s.rev + 1,
       log := s.log + Deletes(s.rev + 1, order))
  }

  function Contents(kvs: map<string, Binding>): map<string, Value> {
    map k | k in kvs :: kvs[k].value
  }

  function ApplyEvent(m: map<string, Value>, e: Event): map<string, Value> {
    match e
    case PutEvent(k, v) => m[k := v]
    case DeleteEvent(k) => m - {k}
  }

  /** The contents of the key space after the events of a log. */
  function Replay(log: seq<Logged>): map<string, Value> {
    if log == [] then map[]
    else ApplyEvent(Replay(log[..|log| - 1]), log[|log| - 1].event)
  }

  /** The index in the log at which a watch opened at revision `start` begins to read. */
  function WatchFrom(log: seq<Logged>, start: nat): (n: nat)
    ensures n <= |log|
  {
    if log == [] || log[|log| - 1].rev < start then |log|
    else WatchFrom(log[..|log| - 1], start)
  }

  ghost predicate Ordered(log: seq<Logged>, rev: nat) {
    && (forall i :: 0 <= i < |log| ==> log[i].rev <= rev)
    && (forall i, j :: 0 <= i <= j < |log| ==> log[i].rev <= log[j].rev)
  }

  ghost predicate Inv(s: Store) {
    && Contents(s.kvs) == Replay(s.log)
    && Ordered(s.log, s.rev)
    && NO_LEASE < s.nextLease
    && (forall l :: l in s.alive ==> NO_LEASE < l < s.nextLease)
  }

  lemma ReplayAppend(log: seq<Logged>, e: Logged)
    ensures Replay(log + [e]) == ApplyEvent(Replay(log), e.event)
  {
    assert (log + [e])[..|log|] == log;
  }

  lemma {:induction false} ReplayDeletes(log: seq<Logged>, rev: nat, keys: seq<string>)
    ensures Replay(log + Deletes(rev, keys)) == Replay(log) - ToSet(keys)
  {
    if keys == [] {
      assert log + Deletes(rev, keys) == log;
    } else {
      var n := |keys| - 1;
      var front, e := log + Deletes(rev, keys[..n]), Logged(rev, DeleteEvent(keys[n]));
      assert log + Deletes(rev, keys) == front + [e];
      ReplayAppend(front, e);
      ReplayDeletes(log, rev, keys[..n]);
      RemoveOneMore(Replay(log), keys);
    }
  }

  lemma RemoveOneMore(m: map<string, Value>, keys: seq<string>)
    requires keys != []
    ensures m - ToSet(keys[..|keys| - 1]) - {keys[|keys| - 1]} == m - ToSet(keys)
  {
    var n := |keys| - 1;
    assert forall k :: k in keys <==> k in keys[..n] || k == keys[n];
  }

  lemma PutKeepsInv(s: Store, key: string, value: Value, lease: LeaseID)
    requires Inv(s)
    ensures Inv(Put(s, key, value, lease))
  {
    var s' := Put(s, key, value, lease);
    ReplayAppend(s.log, Logged(s.rev + 1, PutEvent(key, value)));
    assert Contents(s'.kvs) == Contents(s.kvs)[key := value];
  }

  lemma OrderedDeletes(log: seq<Logged>, rev: nat, keys: seq<string>)
    requires Ordered(log, rev)
    ensures Ordered(log + Deletes(rev + 1, keys), if keys == [] then rev else rev + 1)
  {
    var log' := log + Deletes(rev + 1, keys);
    forall i | |log| <= i < |log'| ensures log'[i].rev == rev + 1 {
      assert log'[i] == Deletes(rev + 1, keys)[i - |log|];
    }
  }

  /** Ending a lease removes exactly the keys bound to it. */
  lemma KillRemovesAttached(s: Store, lease: LeaseID, order: seq<string>)
    requires AttachedKeys(s, lease, order)
    ensures forall k :: k in Kill(s, lease, order).kvs <==> k in s.kvs && s.kvs[k].lease != lease
    ensures Contents(Kill(s, lease, order).kvs) == Contents(s.kvs) - ToSet(order)
  {
  }

  lemma KillKeepsInv(s: Store, lease: LeaseID, order: seq<string>)
    requires Inv(s) && AttachedKeys(s, lease, order)
    ensures Inv(Kill(s, lease, order))
  {
    KillRemovesAttached(s, lease, order);
    ReplayDeletes(s.log, s.rev + 1, order);
    OrderedDeletes(s.log, s.rev, order);
  }

  /** Entries at or after the start revision never move the start of a watch. */
  lemma {:induction false} WatchFromStable(log: seq<Logged>, more: seq<Logged>, start: nat)
    requires forall e :: e in more ==> start <= e.rev
    ensures WatchFrom(log + more, start) == WatchFrom(log, start)
  {
    if more == [] {
      assert log + more == log;
    } else {
      var n := |more| - 1;
      assert (log + more)[..|log + more| - 1] == log + more[..n];
      assert (log + more)[|log + more| - 1] == more[n];
      WatchFromStable(log, more[..n], start);
    }
  }
}
