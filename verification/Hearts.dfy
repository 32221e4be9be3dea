/** The heart beater of one event server, and the resolver that reads what its hearts write. */
module Hearts {
  import opened Common
  import opened Ids
  import opened Memstore
  import opened HeartTable

  const CONNECTIONS: string := "user-connections"
  const HEARTBEAT_TTL: int := 20 * SECOND
  const HEARTBEAT_INTERVAL: int := 10 * SECOND

  /** `draw` is the number drawn below a tenth of the duration. */
  function AddJitter(duration: int, draw: int): (d: int)
    requires 0 <= draw < duration / 10
    ensures 10 * (d - duration) < duration && duration <= d
  {
    duration + draw
  }

  function Beat(db: Db, prefix: string, user: ID, serverID: string, now: int): Db {
    SetWithTTL(db, prefix, CONNECTIONS, String(user), ConnectionJSON(serverID), now, HEARTBEAT_TTL)
  }

  /** The resolver: which server wrote the user's live entry. */
  function ResolveServer(db: Db, prefix: string, user: ID, now: int): Result<string> {
    match GetItem(db, prefix, CONNECTIONS, String(user), now)
    case Err(e) => Err(e)
    case Ok(data) => DecodeConnection(data)
  }

  /** What becomes of a Set: stored and answered, not stored, or stored with the answer lost. */
  datatype SetOutcome = Stored | Refused | ReplyLost

  /** One turn of the heartbeat loop: when its Set takes effect, its outcome, and whether the stop is seen after it. */
  datatype Turn = Turn(now: int, outcome: SetOutcome, thenStop: bool)

  /** The loop goes on after the turn. */
  predicate GoesOn(t: Turn) {
    t.outcome.Stored? && !t.thenStop
  }

  function BeatRun(db: Db, prefix: string, user: ID, serverID: string, turns: seq<Turn>): Db
    decreases |turns|
  {
    if turns == [] then db
    else
      var db' := if turns[0].outcome.Refused? then db else Beat(db, prefix, user, serverID, turns[0].now);
      if GoesOn(turns[0]) then BeatRun(db', prefix, user, serverID, turns[1..]) else db'
  }

  /** The loop takes exactly the first n of the turns. */
  ghost predicate Takes(turns: seq<Turn>, n: nat) {
    && n <= |turns| && (forall i :: 0 <= i < n - 1 ==> GoesOn(turns[i]))
    && (n == |turns| || (0 < n && !GoesOn(turns[n - 1])))
  }

  /** Turn j is the last of the first n that wrote. */
  ghost predicate WroteLast(turns: seq<Turn>, n: nat, j: nat) {
    && j < n <= |turns| && !turns[j].outcome.Refused?
    && forall i :: j < i < n ==> turns[i].outcome.Refused?
  }

  /** The loop leaves the user's entry as the last turn that wrote has left it. */
  lemma {:induction false} EntryAfterTurns(db: Db, prefix: string, user: ID, serverID: string, turns: seq<Turn>,
                                           n: nat, j: nat)
    requires Takes(turns, n) && WroteLast(turns, n, j)
    ensures Lookup(BeatRun(db, prefix, user, serverID, turns), prefix, CONNECTIONS, String(user))
            == Some(Entry(ConnectionJSON(serverID), turns[j].now + HEARTBEAT_TTL))
    decreases |turns|
  {
    var db' := if turns[0].outcome.Refused? then db else Beat(db, prefix, user, serverID, turns[0].now);
    var rest := turns[1..];
    if GoesOn(turns[0]) {
      assert forall i :: 0 < i < |turns| ==> turns[i] == rest[i - 1];
      if 0 < j {
        EntryAfterTurns(db', prefix, user, serverID, rest, n - 1, j - 1);
      } else {
        NothingWritten(db', prefix, user, serverID, rest, n - 1);
      }
    }
  }

  lemma NothingWritten(db: Db, prefix: string, user: ID, serverID: string, turns: seq<Turn>, n: nat)
    requires Takes(turns, n) && forall i :: 0 <= i < n ==> turns[i].outcome.Refused?
    ensures BeatRun(db, prefix, user, serverID, turns) == db
  {
  }

  /** The loop writes no other item of the store. */
  lemma {:induction false} OthersAfterTurns(db: Db, prefix: string, user: ID, serverID: string, turns: seq<Turn>,
                                            c: string, k: string)
    requires SeparatorFree(c) && (c != CONNECTIONS || k != String(user))
    ensures Lookup(BeatRun(db, prefix, user, serverID, turns), prefix, c, k) == Lookup(db, prefix, c, k)
    decreases |turns|
  {
    if turns != [] {
      var t := turns[0];
      var db' := if t.outcome.Refused? then db else Beat(db, prefix, user, serverID, t.now);
      StoreRefinesCollections(db, prefix, CONNECTIONS, String(user), ConnectionJSON(serverID), t.now, HEARTBEAT_TTL,
                              c, k);
      if GoesOn(t) { OthersAfterTurns(db', prefix, user, serverID, turns[1..], c, k); }
    }
  }

  /** A Go channel that is only ever closed; closing it twice would panic. */
  class Signal {
    var closed: bool

    constructor ()
      ensures !closed
    {
      closed := false;
    }

    method Close()
      requires !closed
      modifies this
      ensures closed
    {
      closed := true;
    }
  }

  class HeartBeater {
    const serverID: string
    const store: RedisClient
    var hearts: map<ID, Signal>
    ghost var owner: map<Signal, ID>

    ghost function Abs(): Table<Signal>
      reads this, owner.Keys
    {
      Table(hearts, owner, set c | c in owner && c.closed)
    }

    ghost predicate Valid()
      reads this, owner.Keys
    {
      && (forall u :: u in hearts ==> hearts[u] in owner && owner[hearts[u]] == u)
      && (forall c :: c in owner ==> (!c.closed <==> owner[c] in hearts && hearts[owner[c]] == c))
    }

    constructor (serverID: string, store: RedisClient)
      ensures Valid() && Abs() == EmptyTable() && this.serverID == serverID && this.store == store
    {
      this.serverID, this.store := serverID, store;
      hearts, owner := map[], map[];
    }

    method LaunchForUser(userID: ID) returns (r: Result<Signal>)
      requires Valid()
      modifies this
      ensures Valid()
      ensures r.Ok? <==> userID !in old(hearts)
      ensures r.Ok? ==> fresh(r.value) && Abs() == Launch(old(Abs()), userID, r.value)
      ensures r.Ok? ==> hearts == old(hearts)[userID := r.value] && !r.value.closed
      ensures r.Err? ==> hearts == old(hearts) && owner == old(owner)
    {
      if userID in hearts {
        return Err("user already has heartbeat");
      }
      var stopCh := new Signal();
      hearts := hearts[userID := stopCh];
      owner := owner[stopCh := userID];
      return Ok(stopCh);
    }

    method StopForUser(userID: ID) returns (r: Result<()>)
      requires Valid()
      modifies this`hearts, hearts.Values
      ensures Valid() && owner == old(owner)
      ensures r.Ok? <==> userID in old(hearts)
      ensures Abs() == if r.Ok? then Stop(old(Abs()), userID) else old(Abs())
      ensures hearts == old(hearts) - {userID} && (r.Ok? ==> old(hearts)[userID].closed)
    {
      if userID !in hearts {
        return Err("user does not have heartbeat");
      }
      var h := hearts[userID];
      assert h in hearts.Values;
      h.Close();
      hearts := hearts - {userID};
      return Ok(());
    }

    /** Ranges over the map while the body deletes the entries it visits. */
    method Close() returns (r: Result<()>)
      requires Valid()
      modifies this`hearts, hearts.Values
      ensures Valid() && owner == old(owner)
      ensures Abs() == StopAll(old(Abs())) && r.Ok?
      ensures hearts == map[] && forall u :: u in old(hearts) ==> old(hearts)[u].closed
    {
      r := Ok(());
      while hearts != map[]
        invariant Valid() && owner == old(owner) && r.Ok?
        invariant forall u :: u in hearts ==> u in old(hearts) && hearts[u] == old(hearts[u])
        invariant forall c :: c in owner ==>
          var u := owner[c];
          (c.closed <==> old(c.closed) || (u !in hearts && u in old(hearts) && old(hearts)[u] == c))
        decreases |hearts|
      {
        var userID :| userID in hearts;
        ghost var before := hearts;
        var e := StopForUser(userID);
        if e.Err? {
          r := e;
        }
        assert hearts.Keys == before.Keys - {userID};
        assert |hearts.Keys| < |before.Keys|;
      }
    }

    /** The goroutine of one heart. */
    method HeartBeat(userID: ID, turns: seq<Turn>)
      modifies store
      ensures store.db == BeatRun(old(store.db), store.prefix, userID, serverID, turns)
      ensures forall n: nat, j: nat :: Takes(turns, n) && WroteLast(turns, n, j) ==>
        Lookup(store.db, store.prefix, CONNECTIONS, String(userID))
        == Some(Entry(ConnectionJSON(serverID), turns[j].now + HEARTBEAT_TTL))
      ensures forall c, k :: SeparatorFree(c) && (c != CONNECTIONS || k != String(userID)) ==>
        Lookup(store.db, store.prefix, c, k) == Lookup(old(store.db), store.prefix, c, k)
    {
      HeartBeatLeaves(store.db, userID, turns);
      var i := 0;
      while i < |turns|
        invariant 0 <= i <= |turns|
        invariant BeatRun(store.db, store.prefix, userID, serverID, turns[i..])
                  == BeatRun(old(store.db), store.prefix, userID, serverID, turns)
      {
        var t := turns[i];
        if !t.outcome.Refused? {
          store.SetCollectionItemWithTTL(CONNECTIONS, String(userID), ConnectionJSON(serverID), HEARTBEAT_TTL, t.now);
        }
        if !t.outcome.Stored? {
          return;
        }
        if t.thenStop {
          return;
        }
        i := i + 1;
      }
    }

    lemma HeartBeatLeaves(db: Db, userID: ID, turns: seq<Turn>)
      ensures forall n: nat, j: nat :: Takes(turns, n) && WroteLast(turns, n, j) ==>
        Lookup(BeatRun(db, store.prefix, userID, serverID, turns), store.prefix, CONNECTIONS, String(userID))
        == Some(Entry(ConnectionJSON(serverID), turns[j].now + HEARTBEAT_TTL))
      ensures forall c, k :: SeparatorFree(c) && (c != CONNECTIONS || k != String(userID)) ==>
        Lookup(BeatRun(db, store.prefix, userID, serverID, turns), store.prefix, c, k) == Lookup(db, store.prefix, c, k)
    {
      forall n: nat, j: nat | Takes(turns, n) && WroteLast(turns, n, j)
        ensures Lookup(BeatRun(db, store.prefix, userID, serverID, turns), store.prefix, CONNECTIONS, String(userID))
                == Some(Entry(ConnectionJSON(serverID), turns[j].now + HEARTBEAT_TTL))
      {
        EntryAfterTurns(db, store.prefix, userID, serverID, turns, n, j);
      }
      forall c, k | SeparatorFree(c) && (c != CONNECTIONS || k != String(userID))
        ensures Lookup(BeatRun(db, store.prefix, userID, serverID, turns), store.prefix, c, k)
                == Lookup(db, store.prefix, c, k)
      {
        OthersAfterTurns(db, store.prefix, userID, serverID, turns, c, k);
      }
    }
  }

  /** The decoder fills its receiver in place. */
  class ConnectionInfo {
    var serverID: string

    constructor ()
      ensures serverID == ""
    {
      serverID := "";
    }

    method Unmarshall(data: Payload) returns (r: Result<()>)
      modifies this
      ensures r.Ok? <==> DecodeInto(data, old(serverID)).Ok?
      ensures serverID == if r.Ok? then DecodeInto(data, old(serverID)).value else old(serverID)
      ensures r.Ok? <==> !data.OtherBytes?
      ensures serverID == if data.ConnectionJSON? then data.serverID else old(serverID)
    {
      var d := DecodeInto(data, serverID);
      if d.Err? {
        return Err(d.error);
      }
      serverID := d.value;
      return Ok(());
    }
  }

  method Resolve(store: RedisClient, userID: ID, now: int) returns (r: Result<string>)
    ensures r == ResolveServer(store.db, store.prefix, userID, now)
  {
    var data := store.GetCollectionItem(CONNECTIONS, String(userID), now);
    if data.Err? {
      return Err(data.error);
    }
    var info := new ConnectionInfo();
    var e := info.Unmarshall(data.value);
    if e.Err? {
      return Err(DecodeConnection(data.value).error);
    }
    return Ok(info.serverID);
  }
}
