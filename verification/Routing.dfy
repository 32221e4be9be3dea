/**
 Routing of an event to its recipient's server: the resolver reads the presence store, the client pool reads
 the gateway's registry. Presence and membership run side by side in one world.
 */
module Routing {
  import opened Common
  import opened Ids
  import Etcd
  import Registry
  import Membership
  import MembershipTheorems
  import Hearts
  import Presence
  import FailedHearts

  datatype World = World(presence: Presence.State, cluster: Membership.Cluster)

  /** The pool builds a client for the HTTP address that the registry holds. */
  function ClientForServer(cache: Registry.Cache, serverID: string): Result<string> {
    match Registry.Cached(cache, serverID)
    case None => Err("resolving server info")
    case Some(info) => Ok(info.httpAddress)
  }

  /** Forward up to the send: the address of its client. The store is read first, the registry later. */
  function ForwardTarget(p: Presence.State, cache: Registry.Cache, recipient: ID): Result<string> {
    match Hearts.ResolveServer(p.db, p.prefix, recipient, p.now)
    case Err(e) => Err(e)
    case Ok(serverID) => ClientForServer(cache, serverID)
  }

  ghost predicate Init(w: World) {
    Presence.Init(w.presence) && Membership.Init(w.cluster)
  }

  ghost predicate Next(w: World, w': World) {
    || (Presence.Next(w.presence, w'.presence) && w'.cluster == w.cluster)
    || (Membership.Next(w.cluster, w'.cluster) && w'.presence == w.presence)
  }

  ghost predicate StepAt(tr: seq<World>, i: nat)
    requires i + 1 < |tr|
  {
    Next(tr[i], tr[i + 1])
  }

  ghost predicate IsRun(tr: seq<World>) {
    && |tr| > 0 && Init(tr[0])
    && (forall i: nat :: i + 1 < |tr| ==> StepAt(tr, i))
  }

  ghost function PresenceRun(tr: seq<World>): (r: seq<Presence.State>)
    ensures |r| == |tr| && forall i :: 0 <= i < |tr| ==> r[i] == tr[i].presence
  {
    seq(|tr|, i requires 0 <= i < |tr| => tr[i].presence)
  }

  ghost function ClusterRun(tr: seq<World>): (r: seq<Membership.Cluster>)
    ensures |r| == |tr| && forall i :: 0 <= i < |tr| ==> r[i] == tr[i].cluster
  {
    seq(|tr|, i requires 0 <= i < |tr| => tr[i].cluster)
  }

  /** A run of the world is a run of each of its components. */
  lemma ComponentRuns(tr: seq<World>)
    requires IsRun(tr)
    ensures Presence.IsRun(PresenceRun(tr)) && Membership.IsRun(ClusterRun(tr))
  {
    forall i: nat | i + 1 < |tr|
      ensures Presence.StepAt(PresenceRun(tr), i) && Membership.StepAt(ClusterRun(tr), i)
    {
      assert StepAt(tr, i);
    }
  }

  ghost predicate Watches(w: World) {
    w.cluster.reg.phase.RegWatching? || w.cluster.reg.phase.RegStopped?
  }

  /** The last event of a log on a key. */
  function LastEventOn(log: seq<Etcd.Logged>, key: string): Option<Etcd.Event> {
    if log == [] then None
    else if log[|log| - 1].event.key == key then Some(log[|log| - 1].event)
    else LastEventOn(log[..|log| - 1], key)
  }

  lemma {:induction false} ReplayByLastEvent(log: seq<Etcd.Logged>, key: string)
    ensures key in Etcd.Replay(log) <==> LastEventOn(log, key).Some? && LastEventOn(log, key).value.PutEvent?
    ensures key in Etcd.Replay(log) ==> LastEventOn(log, key) == Some(Etcd.PutEvent(key, Etcd.Replay(log)[key]))
  {
    if log != [] {
      ReplayByLastEvent(log[..|log| - 1], key);
    }
  }

  /** The last event that the registry's watch has passed on a server's key. */
  ghost function AppliedEvent(w: World, serverID: string): Option<Etcd.Event>
    requires w.cluster.reg.upto <= |w.cluster.store.log|
  {
    LastEventOn(w.cluster.store.log[..w.cluster.reg.upto], Registry.Key(serverID))
  }

  /**
   Forward, its store read at moment i and its registry lookup at a later moment j, chooses an address exactly when
   the recipient's last heartbeat was under 20 seconds old at i, and the last event applied by j on the key of the
   server that sent it is a put with that address; the recipient was then in that server's connection table.
   */
  lemma ForwardPicksConsistentTarget(tr: seq<World>, i: nat, j: nat, u: ID, address: string)
    requires IsRun(tr) && i <= j < |tr| && Watches(tr[j])
    ensures tr[j].cluster.reg.upto <= |tr[j].cluster.store.log|
    ensures ForwardTarget(tr[i].presence, tr[j].cluster.reg.cache, u) == Ok(address)
      <==> (var c := Presence.LastCommit(tr[i].presence.hist, u);
            && c.Some? && tr[i].presence.now < c.value.time + Hearts.HEARTBEAT_TTL
            && var e := AppliedEvent(tr[j], c.value.server);
               e.Some? && e.value.PutEvent? && e.value.value.InfoJSON? && e.value.value.info.httpAddress == address)
    ensures ForwardTarget(tr[i].presence, tr[j].cluster.reg.cache, u).Ok? ==>
      var c := Presence.LastCommit(tr[i].presence.hist, u);
      c.Some? && c.value.server in tr[i].presence.servers && u in tr[i].presence.servers[c.value.server].es.conns
  {
    ComponentRuns(tr);
    Presence.RoutingSoundness(PresenceRun(tr), i, u);
    MembershipTheorems.CacheAgreement(ClusterRun(tr), j);
    var s := PresenceRun(tr)[i];
    var c := Presence.LastCommit(s.hist, u);
    var resolved := Hearts.ResolveServer(s.db, s.prefix, u, s.now);
    if c.Some? {
      assert resolved == Ok(c.value.server) <==> s.now < c.value.time + Hearts.HEARTBEAT_TTL;
      LookupByEvent(tr[j], c.value.server);
    }
    assert resolved.Ok? ==> resolved == Ok(resolved.value);
  }

  /** The registry's answer for a server is decided by the last applied event on its key. */
  lemma LookupByEvent(w: World, serverID: string)
    requires w.cluster.reg.upto <= |w.cluster.store.log|
    requires Registry.Agrees(w.cluster.reg.cache, Etcd.Replay(w.cluster.store.log[..w.cluster.reg.upto]))
    ensures var e := AppliedEvent(w, serverID);
            Registry.Cached(w.cluster.reg.cache, serverID)
            == if e.Some? && e.value.PutEvent? then Etcd.Unmarshall(e.value.value) else None
  {
    var m := Etcd.Replay(w.cluster.store.log[..w.cluster.reg.upto]);
    ReplayByLastEvent(w.cluster.store.log[..w.cluster.reg.upto], Registry.Key(serverID));
    assert Registry.Cached(w.cluster.reg.cache, serverID) == Registry.Stored(m, serverID);
  }

  /**
   Once a server's delete is the last applied event on its key, nothing is forwarded to it, even while its heartbeat
   entry is still live.
   */
  lemma NoForwardAfterDelete(tr: seq<World>, i: nat, j: nat, u: ID, serverID: string)
    requires IsRun(tr) && i <= j < |tr| && Watches(tr[j])
    requires Hearts.ResolveServer(tr[i].presence.db, tr[i].presence.prefix, u, tr[i].presence.now) == Ok(serverID)
    ensures tr[j].cluster.reg.upto <= |tr[j].cluster.store.log|
    ensures AppliedEvent(tr[j], serverID) == Some(Etcd.DeleteEvent(Registry.Key(serverID)))
            ==> ForwardTarget(tr[i].presence, tr[j].cluster.reg.cache, u).Err?
  {
    ComponentRuns(tr);
    MembershipTheorems.CacheAgreement(ClusterRun(tr), j);
    LookupByEvent(tr[j], serverID);
  }

  /**
   A server that has left the cluster cleanly, with an ID no other process has, gets nothing once the watch has
   caught up.
   */
  lemma NoForwardAfterLeaving(tr: seq<World>, i: nat, k: nat, j: nat, u: ID, p: Membership.Pid)
    requires IsRun(tr) && i <= j < |tr| && k <= j && Watches(tr[j])
    requires p in tr[k].cluster.mgrs && tr[k].cluster.mgrs[p].leave.ReturnedNil?
    requires p in tr[j].cluster.mgrs && Membership.UniqueID(tr[j].cluster, p)
    requires tr[j].cluster.reg.upto == |tr[j].cluster.store.log|
    requires Hearts.ResolveServer(tr[i].presence.db, tr[i].presence.prefix, u, tr[i].presence.now)
             == Ok(tr[j].cluster.mgrs[p].id)
    ensures ForwardTarget(tr[i].presence, tr[j].cluster.reg.cache, u).Err?
  {
    ComponentRuns(tr);
    MembershipTheorems.CacheAgreement(ClusterRun(tr), j);
    MembershipTheorems.NoResurrection(ClusterRun(tr), k, j, p);
    var id := tr[j].cluster.mgrs[p].id;
    assert Registry.Cached(tr[j].cluster.reg.cache, id) == Registry.Stored(Etcd.Contents(tr[j].cluster.store.kvs), id);
  }

  /**
   With the watch caught up and distinct IDs, Forward reaches an address exactly when the recipient's last heartbeat is
   live and its server is a member: some process with that ID has, under a lease that etcd still holds, had a refresh
   with that address accepted last.
   */
  lemma ForwardReachesMembers(tr: seq<World>, i: nat, j: nat, u: ID, address: string)
    requires IsRun(tr) && i <= j < |tr| && Watches(tr[j])
    requires tr[j].cluster.reg.upto == |tr[j].cluster.store.log|
    requires forall p :: p in tr[j].cluster.mgrs ==> Membership.UniqueID(tr[j].cluster, p)
    ensures ForwardTarget(tr[i].presence, tr[j].cluster.reg.cache, u) == Ok(address)
      <==> (var c := Presence.LastCommit(tr[i].presence.hist, u);
            && c.Some? && tr[i].presence.now < c.value.time + Hearts.HEARTBEAT_TTL
            && exists p, info :: MembershipTheorems.RefreshedAlive(tr[j].cluster, p, c.value.server, info)
                                 && info.httpAddress == address)
  {
    ComponentRuns(tr);
    Presence.RoutingSoundness(PresenceRun(tr), i, u);
    var s := PresenceRun(tr)[i];
    var c := Presence.LastCommit(s.hist, u);
    var resolved := Hearts.ResolveServer(s.db, s.prefix, u, s.now);
    if c.Some? {
      assert resolved == Ok(c.value.server) <==> s.now < c.value.time + Hearts.HEARTBEAT_TTL;
      MemberLookup(tr, j, c.value.server);
    }
    assert resolved.Ok? ==> resolved == Ok(resolved.value);
  }

  /** A caught-up registry knows exactly the members. */
  lemma MemberLookup(tr: seq<World>, j: nat, id: string)
    requires IsRun(tr) && j < |tr| && Watches(tr[j])
    requires tr[j].cluster.reg.upto == |tr[j].cluster.store.log|
    requires forall p :: p in tr[j].cluster.mgrs ==> Membership.UniqueID(tr[j].cluster, p)
    ensures forall info :: Registry.Cached(tr[j].cluster.reg.cache, id) == Some(info)
                           <==> exists p :: MembershipTheorems.RefreshedAlive(tr[j].cluster, p, id, info)
  {
    ComponentRuns(tr);
    MembershipTheorems.CacheAgreement(ClusterRun(tr), j);
    var s := tr[j].cluster;
    assert Registry.Cached(s.reg.cache, id) == Registry.Stored(Etcd.Contents(s.store.kvs), id);
    forall info
      ensures Registry.Cached(s.reg.cache, id) == Some(info)
              <==> exists p :: MembershipTheorems.RefreshedAlive(s, p, id, info)
    {
      MembershipTheorems.ExactMembership(ClusterRun(tr), j, id, info);
    }
  }

  // ---------- such worlds are reached ----------

  ghost predicate Reachable(w: World) {
    exists tr :: IsRun(tr) && tr[|tr| - 1] == w
  }

  /** Presence and membership do not get in each other's way. */
  lemma ReachableTogether(p: Presence.State, c: Membership.Cluster)
    requires FailedHearts.Reachable(p) && MembershipTheorems.Reachable(c)
    ensures Reachable(World(p, c))
  {
    var ps :| FailedHearts.RunTo(ps, p);
    var cs :| MembershipTheorems.RunTo(cs, c);
    var n, m := |ps|, |cs|;
    var tr := seq(n + m, i requires 0 <= i < n + m => if i < n then World(ps[i], cs[0]) else World(p, cs[i - n]));
    forall i: nat | i + 1 < |tr| ensures StepAt(tr, i) {
      if i + 1 < n {
        assert Presence.StepAt(ps, i);
      } else if n <= i {
        assert Membership.StepAt(cs, i - n);
      }
    }
    assert tr[n + m - 1] == World(p, c);
    assert IsRun(tr);
  }

  /** A user connected to a server that the gateway knows: an event is forwarded to its address. */
  lemma ForwardReachable(u: ID, address: string)
    ensures exists w :: Reachable(w) && ForwardTarget(w.presence, w.cluster.reg.cache, u) == Ok(address)
  {
    var info := Etcd.ServerInfo("s", "", address);
    FailedHearts.BeatenReachable(u);
    MembershipTheorems.WatchedMemberReachable(info);
    var db := Hearts.Beat(map[], "", u, "s", 0);
    var hist := [] + [Presence.Commit("s", u, 0, 0)];
    var p := FailedHearts.Solo(FailedHearts.OneUser(u), FailedHearts.Beaten(u), 0, db, hist);
    var c :| MembershipTheorems.Reachable(c) && Registry.Cached(c.reg.cache, info.id) == Some(info);
    ReachableTogether(p, c);
    assert ForwardTarget(World(p, c).presence, World(p, c).cluster.reg.cache, u) == Ok(address);
  }
}
