/** The event server object: its connection map, and the calls whose atomic parts are the steps of EventServer. */
module ConnectionServer {
  import opened Common
  import opened Ids
  import opened HeartTable
  import opened Hearts
  import EventServer

  datatype PrivConn = PrivConn(conn: EventServer.ConnId, waitCh: Signal)

  /** What one select of the collector receives: a message of errCh, or the end of the context. */
  datatype Collected = Message | ContextDone

  /**
   What a state of the machine has in common with the server object: who is connected by what, and who has a heart.
   */
  ghost predicate Sees(s: EventServer.Es, conns: map<ID, EventServer.ConnId>, beating: set<ID>) {
    s.conns == conns && s.table.hearts.Keys == beating
  }

  /** The steps of the machine that a call of ServeConnection takes before it waits or fails. */
  ghost predicate Serves(s: EventServer.Es, c: EventServer.ConnId, u: ID, g: EventServer.GoId, launched: bool,
                         s': EventServer.Es)
  {
    var launch := if launched then EventServer.LaunchSucceeds(c, g) else EventServer.LaunchFails(c);
    && EventServer.Enabled(s, EventServer.Register(c, u))
    && EventServer.Enabled(EventServer.Apply(s, EventServer.Register(c, u)), launch)
    && s' == EventServer.Apply(EventServer.Apply(s, EventServer.Register(c, u)), launch)
  }

  /** Registration, then the launch: it succeeds exactly when the user has no heart, and adds one. */
  lemma ServeSteps(s: EventServer.Es, c: EventServer.ConnId, u: ID, g: EventServer.GoId, launched: bool)
    requires EventServer.Enabled(s, EventServer.Register(c, u)) && g !in s.table.owner
    ensures launched == (u !in s.table.hearts) <==> exists s' :: Serves(s, c, u, g, launched, s')
    ensures forall s' :: Serves(s, c, u, g, launched, s') ==>
      && Sees(s', s.conns[u := c], s.table.hearts.Keys + if launched then {u} else {})
      && s'.serves[c].pc == if launched then EventServer.Waiting else EventServer.Failed
  {
    if launched == (u !in s.table.hearts) {
      var s1 := EventServer.Apply(s, EventServer.Register(c, u));
      var launch := if launched then EventServer.LaunchSucceeds(c, g) else EventServer.LaunchFails(c);
      assert Serves(s, c, u, g, launched, EventServer.Apply(s1, launch));
    }
  }

  class Server {
    var connections: map<ID, PrivConn>
    const heartBeater: HeartBeater

    /** The table as the machine sees it. */
    ghost function Conns(): map<ID, EventServer.ConnId>
      reads this
    {
      map u | u in connections :: connections[u].conn
    }

    /** Each connection has its own channel. */
    ghost predicate OwnChannels()
      reads this
    {
      forall u, v :: u in connections && v in connections && connections[u].waitCh == connections[v].waitCh ==> u == v
    }

    constructor (heartBeater: HeartBeater)
      ensures connections == map[] && OwnChannels() && this.heartBeater == heartBeater
    {
      connections := map[];
      this.heartBeater := heartBeater;
    }

    /** The critical section of ServeConnection: a connection of the same user is overwritten. */
    method Enter(userID: ID, conn: EventServer.ConnId) returns (pc: PrivConn)
      requires OwnChannels()
      modifies this
      ensures OwnChannels() && connections == old(connections)[userID := pc]
      ensures Conns() == old(Conns())[userID := conn]
      ensures pc.conn == conn && fresh(pc.waitCh) && !pc.waitCh.closed
    {
      var ch := new Signal();
      pc := PrivConn(conn, ch);
      connections := connections[userID := pc];
    }

    /**
     ServeConnection up to the point where it waits: register, then launch a heart; the table entry stays even if the
     launch fails.
     */
    method ServeConnection(userID: ID, conn: EventServer.ConnId) returns (r: Result<Signal>)
      requires OwnChannels() && heartBeater.Valid()
      modifies this, heartBeater
      ensures heartBeater.Valid() && OwnChannels()
      ensures userID in connections && connections == old(connections)[userID := connections[userID]]
      ensures connections[userID].conn == conn
      ensures fresh(connections[userID].waitCh) && !connections[userID].waitCh.closed
      ensures r.Ok? <==> userID !in old(heartBeater.hearts)
      ensures r.Ok? ==> r.value == connections[userID].waitCh && userID in heartBeater.hearts
                        && heartBeater.Abs() == Launch(old(heartBeater.Abs()), userID, heartBeater.hearts[userID])
      ensures r.Err? ==> heartBeater.hearts == old(heartBeater.hearts)
      ensures forall s, g :: EventServer.Enabled(s, EventServer.Register(conn, userID)) && g !in s.table.owner
                && Sees(s, old(Conns()), old(heartBeater.hearts.Keys))
                ==> exists s' :: Serves(s, conn, userID, g, r.Ok?, s') && Sees(s', Conns(), heartBeater.hearts.Keys)
    {
      ghost var before, beating := Conns(), heartBeater.hearts.Keys;
      var pc := Enter(userID, conn);
      var launched := heartBeater.LaunchForUser(userID);
      forall s, g | EventServer.Enabled(s, EventServer.Register(conn, userID)) && g !in s.table.owner
                    && Sees(s, before, beating)
        ensures exists s' :: Serves(s, conn, userID, g, launched.Ok?, s') && Sees(s', Conns(), heartBeater.hearts.Keys)
      {
        ServeSteps(s, conn, userID, g, launched.Ok?);
        var s' :| Serves(s, conn, userID, g, launched.Ok?, s');
        assert Sees(s', Conns(), heartBeater.hearts.Keys);
      }
      if launched.Err? {
        return Err("failed to launch heart beater");
      }
      return Ok(pc.waitCh);
    }

    /** The connection that SendEvent hands the event to. */
    method SendEvent(userID: ID) returns (r: Result<EventServer.ConnId>)
      ensures r.Ok? <==> userID in Conns()
      ensures r.Ok? ==> r.value == Conns()[userID]
      ensures forall s :: EventServer.Enabled(s, EventServer.SendEvent(userID))
                && Sees(s, Conns(), heartBeater.hearts.Keys)
                ==> EventServer.Apply(s, EventServer.SendEvent(userID)).sends
                    == s.sends + [EventServer.Sent(userID, |s.regs|, if r.Ok? then Some(r.value) else None)]
    {
      if userID !in connections {
        return Err("user is not connected");
      }
      return Ok(connections[userID].conn);
    }

    /** The goroutines of InitiateShutdown, in the order in which they close their channels. */
    method RunClosers(order: seq<ID>)
      requires OwnChannels()
      requires forall u :: u in connections <==> u in order
      requires forall i, j :: 0 <= i < j < |order| ==> order[i] != order[j]
      requires forall u :: u in connections ==> !connections[u].waitCh.closed
      modifies set u | u in connections :: connections[u].waitCh
      ensures forall u :: u in connections ==> connections[u].waitCh.closed
    {
      var i := 0;
      while i < |order|
        invariant 0 <= i <= |order|
        invariant forall j :: 0 <= j < |order| ==>
          order[j] in connections && (connections[order[j]].waitCh.closed <==> j < i)
      {
        connections[order[i]].waitCh.Close();
        i := i + 1;
      }
    }

    /**
     The collector: one message per connection, or an early end with the context's error. Every message is a nil
     error.
     */
    method Collect(inputs: seq<Collected>) returns (r: Result<()>)
      requires |connections| <= |inputs|
      ensures r.Ok? <==> forall i :: 0 <= i < |connections| ==> inputs[i].Message?
    {
      var i := 0;
      while i < |connections|
        invariant 0 <= i <= |connections|
        invariant forall j :: 0 <= j < i ==> inputs[j].Message?
      {
        if inputs[i].ContextDone? {
          return Err("context done");
        }
        i := i + 1;
      }
      return Ok(());
    }
  }
}
