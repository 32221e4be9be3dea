/**
 The gateway's cache of the cluster: a snapshot of the namespace, then watch events applied in order.
 */
module Registry {
  import opened Common
  import opened Etcd

  const NAMESPACE: string := "/event_servers/"

  function Key(id: string): string {
    NAMESPACE + id
  }

  predicate InNamespace(key: string) {
    NAMESPACE <= key
  }

  function IdOf(key: string): string
    requires InNamespace(key)
  {
    key[|NAMESPACE|..]
  }

  type Cache = map<string, ServerInfo>

  function Cached(c: Cache, id: string): Option<ServerInfo> {
    if id in c then Some(c[id]) else None
  }

  /** What etcd holds for a server: the decoded value under the server's key. */
  function Stored(m: map<string, Value>, id: string): Option<ServerInfo> {
    if Key(id) in m then Unmarshall(m[Key(id)]) else None
  }

  /** The cache is the id-to-info projection of the namespace of `m`. */
  ghost predicate Agrees(c: Cache, m: map<string, Value>) {
    forall id :: Cached(c, id) == Stored(m, id)
  }

  /** One watch event, as watchForUpdates handles it. */
  function CacheApply(c: Cache, e: Event): Cache
    requires InNamespace(e.key)
  {
    match e
    case PutEvent(_, value) =>
      (match Unmarshall(value)
       case None => c
       case Some(info) => c[info.id := info])
    case DeleteEvent(key) =>
      if IdOf(key) !in c then c else c - {IdOf(key)}
  }

  function CacheApplyAll(c: Cache, es: seq<Event>): Cache
    requires forall e :: e in es ==> InNamespace(e.key)
    decreases |es|
  {
    if es == [] then c else CacheApplyAll(CacheApply(c, es[0]), es[1..])
  }

  datatype KV = KV(key: string, value: Value)

  /** The loop of Start over the answered keys; None when a value does not decode. */
  function Load(c: Cache, kvs: seq<KV>): Option<Cache>
    decreases |kvs|
  {
    if kvs == [] then Some(c)
    else
      match Unmarshall(kvs[0].value)
      case None => None
      case Some(info) => Load(c[info.id := info], kvs[1..])
  }

  /** The servers that the loop of Start has stored when it ends, also when it ends at a value that does not decode. */
  function LoadedSoFar(c: Cache, kvs: seq<KV>): Cache
    decreases |kvs|
  {
    if kvs == [] then c
    else
      match Unmarshall(kvs[0].value)
      case None => c
      case Some(info) => LoadedSoFar(c[info.id := info], kvs[1..])
  }

  lemma {:induction false} LoadCompletes(c: Cache, kvs: seq<KV>)
    ensures Load(c, kvs).Some? <==> forall i :: 0 <= i < |kvs| ==> Unmarshall(kvs[i].value).Some?
    ensures Load(c, kvs).Some? ==> Load(c, kvs).value == LoadedSoFar(c, kvs)
    decreases |kvs|
  {
    if kvs != [] && Unmarshall(kvs[0].value).Some? {
      var info := Unmarshall(kvs[0].value).value;
      LoadCompletes(c[info.id := info], kvs[1..]);
      assert forall i :: 0 < i < |kvs| ==> kvs[i] == kvs[1..][i - 1];
    }
  }

  /** A load that ends early has stored exactly the servers before the first value that does not decode. */
  lemma {:induction false} LoadStopsAt(c: Cache, kvs: seq<KV>, n: nat)
    requires n <= |kvs| && forall i :: 0 <= i < n ==> Unmarshall(kvs[i].value).Some?
    requires n == |kvs| || Unmarshall(kvs[n].value).None?
    ensures Load(c, kvs[..n]) == Some(LoadedSoFar(c, kvs))
    decreases |kvs|
  {
    if 0 < n {
      LoadStopsAt(c[Unmarshall(kvs[0].value).value.id := Unmarshall(kvs[0].value).value], kvs[1..], n - 1);
      assert kvs[..n][1..] == kvs[1..][..n - 1];
    }
  }

  /** The reply of a prefix Get on the namespace: every key of the namespace once, with its value. */
  ghost predicate GetReply(m: map<string, Value>, kvs: seq<KV>) {
    && (forall i :: 0 <= i < |kvs| ==> InNamespace(kvs[i].key) && kvs[i].key in m && m[kvs[i].key] == kvs[i].value)
    && (forall k :: k in m && InNamespace(k) ==> KV(k, m[k]) in kvs)
    && (forall i, j :: 0 <= i < j < |kvs| ==> kvs[i].key != kvs[j].key)
  }

  /** The writer's side of the agreement: a value is stored under the key made from its own ID. */
  predicate WellKeyed(key: string, value: Value) {
    value.InfoJSON? && key == Key(value.info.id)
  }

  predicate WellKeyedEvent(e: Event) {
    e.PutEvent? ==> WellKeyed(e.key, e.value)
  }

  lemma KeyInjective(a: string, b: string)
    requires Key(a) == Key(b)
    ensures a == b
  {
    assert a == Key(a)[|NAMESPACE|..] && b == Key(b)[|NAMESPACE|..];
  }

  lemma KeyOfId(key: string)
    requires InNamespace(key)
    ensures Key(IdOf(key)) == key
  {
  }

  lemma WellKeyedStepAgrees(c: Cache, m: map<string, Value>, e: Event)
    requires Agrees(c, m) && InNamespace(e.key) && WellKeyedEvent(e)
    ensures Agrees(CacheApply(c, e), ApplyEvent(m, e))
  {
    var id0 := IdOf(e.key);
    KeyOfId(e.key);
    if e.PutEvent? {
      KeyInjective(id0, e.value.info.id);
    }
    forall id ensures Cached(CacheApply(c, e), id) == Stored(ApplyEvent(m, e), id) {
      assert Cached(c, id) == Stored(m, id);
      if Key(id) == e.key {
        KeyInjective(id, id0);
      }
    }
  }

  /** Events on other keys leave the projection alone. */
  lemma ForeignStepAgrees(c: Cache, m: map<string, Value>, e: Event)
    requires Agrees(c, m) && !InNamespace(e.key)
    ensures Agrees(c, ApplyEvent(m, e))
  {
    forall id ensures Cached(c, id) == Stored(ApplyEvent(m, e), id) {
      assert Cached(c, id) == Stored(m, id);
      assert InNamespace(Key(id));
    }
  }

  /** Applying an event keeps every agreeing cache agreeing exactly when the event is well keyed. */
  lemma AgreementNeedsWellKeyed(e: Event)
    requires InNamespace(e.key)
    ensures (forall c: Cache, m :: Agrees(c, m) ==> Agrees(CacheApply(c, e), ApplyEvent(m, e))) <==> WellKeyedEvent(e)
  {
    if WellKeyedEvent(e) {
      forall c: Cache, m | Agrees(c, m) ensures Agrees(CacheApply(c, e), ApplyEvent(m, e)) {
        WellKeyedStepAgrees(c, m, e);
      }
    } else {
      var id := IdOf(e.key);
      KeyOfId(e.key);
      // the server was known before the faulty write
      var info := ServerInfo(id, "", "");
      var c: Cache := map[id := info];
      var m := map[e.key := InfoJSON(info)];
      forall x ensures Cached(c, x) == Stored(m, x) {
        if Key(x) == e.key { KeyInjective(x, id); }
      }
      assert Agrees(c, m);
      assert Cached(CacheApply(c, e), id) != Stored(ApplyEvent(m, e), id);
    }
  }

  lemma {:induction false} LoadedCache(c: Cache, kvs: seq<KV>)
    requires forall i :: 0 <= i < |kvs| ==> WellKeyed(kvs[i].key, kvs[i].value)
    requires forall i, j :: 0 <= i < j < |kvs| ==> kvs[i].key != kvs[j].key
    ensures Load(c, kvs).Some?
    ensures forall id, i :: 0 <= i < |kvs| && kvs[i].key == Key(id) ==>
      Cached(Load(c, kvs).value, id) == Unmarshall(kvs[i].value)
    ensures forall id :: (forall i :: 0 <= i < |kvs| ==> kvs[i].key != Key(id))
                         ==> Cached(Load(c, kvs).value, id) == Cached(c, id)
    decreases |kvs|
  {
    if kvs != [] {
      var info := kvs[0].value.info;
      var rest := kvs[1..];
      assert forall i :: 0 < i < |kvs| ==> kvs[i] == rest[i - 1];
      LoadedCache(c[info.id := info], rest);
      forall id | forall i :: 0 <= i < |rest| ==> rest[i].key != Key(id)
        ensures kvs[0].key == Key(id) ==> Cached(Load(c, kvs).value, id) == Some(info)
        ensures kvs[0].key != Key(id) ==> Cached(Load(c, kvs).value, id) == Cached(c, id)
      {
        if kvs[0].key == Key(id) { KeyInjective(id, info.id); }
      }
    }
  }

  /** A snapshot of a well-keyed namespace loads, and the loaded cache is its projection. */
  lemma SnapshotAgrees(m: map<string, Value>, kvs: seq<KV>)
    requires GetReply(m, kvs)
    requires forall k :: k in m && InNamespace(k) ==> WellKeyed(k, m[k])
    ensures Load(map[], kvs).Some? && Agrees(Load(map[], kvs).value, m)
  {
    LoadedCache(map[], kvs);
    var r := Load(map[], kvs).value;
    forall id ensures Cached(r, id) == Stored(m, id) {
      if Key(id) in m {
        assert InNamespace(Key(id));
        var i :| 0 <= i < |kvs| && kvs[i] == KV(Key(id), m[Key(id)]);
      }
    }
  }

  /** What one select of watchForUpdates receives. */
  datatype WatchInput = CloseSeen | Canceled | Failed | Response(events: seq<Event>)

  /** The effect of the watch loop: responses are applied until the first other input. */
  function WatchRun(c: Cache, inputs: seq<WatchInput>): Cache
    requires FromNamespace(inputs)
    decreases |inputs|
  {
    if inputs == [] || !inputs[0].Response? then c
    else
      assert inputs[0] in inputs;
      WatchRun(CacheApplyAll(c, inputs[0].events), inputs[1..])
  }

  ghost predicate FromNamespace(inputs: seq<WatchInput>) {
    forall w, e :: w in inputs && w.Response? && e in w.events ==> InNamespace(e.key)
  }

  /** The watch loop takes exactly n responses. */
  ghost predicate Responses(inputs: seq<WatchInput>, n: nat) {
    && n <= |inputs| && (forall i :: 0 <= i < n ==> inputs[i].Response?)
    && (n == |inputs| || !inputs[n].Response?)
  }

  /** The events of some responses, one response after the other. */
  function EventsOf(inputs: seq<WatchInput>): (es: seq<Event>)
    requires FromNamespace(inputs) && forall i :: 0 <= i < |inputs| ==> inputs[i].Response?
    ensures forall e :: e in es ==> InNamespace(e.key)
  {
    if inputs == [] then []
    else
      assert inputs[0] in inputs;
      inputs[0].events + EventsOf(inputs[1..])
  }

  lemma {:induction false} CacheApplyAppend(c: Cache, a: seq<Event>, b: seq<Event>)
    requires forall e :: e in a + b ==> InNamespace(e.key)
    ensures forall e :: e in a || e in b ==> InNamespace(e.key)
    ensures CacheApplyAll(c, a + b) == CacheApplyAll(CacheApplyAll(c, a), b)
    decreases |a|
  {
    assert forall e :: e in a || e in b ==> e in a + b;
    if a == [] {
      assert a + b == b;
    } else {
      assert (a + b)[0] == a[0] && (a + b)[1..] == a[1..] + b;
      CacheApplyAppend(CacheApply(c, a[0]), a[1..], b);
    }
  }

  /**
   The watch loop applies every event of every response before the first other input, in order, and nothing after it.
   */
  lemma {:induction false} WatchAppliesAll(c: Cache, inputs: seq<WatchInput>, n: nat)
    requires FromNamespace(inputs) && Responses(inputs, n)
    ensures FromNamespace(inputs[..n])
    ensures WatchRun(c, inputs) == CacheApplyAll(c, EventsOf(inputs[..n]))
    decreases |inputs|
  {
    assert forall w :: w in inputs[..n] ==> w in inputs;
    if 0 < n {
      var rest := inputs[1..];
      assert inputs[0] in inputs && Responses(rest, n - 1);
      assert inputs[..n][1..] == rest[..n - 1];
      WatchAppliesAll(CacheApplyAll(c, inputs[0].events), rest, n - 1);
      CacheApplyAppend(c, inputs[0].events, EventsOf(rest[..n - 1]));
    }
  }

  class ServerRegistry {
    var servers: Cache

    constructor ()
      ensures servers == map[]
    {
      servers := map[];
    }

    /**
     Loads the snapshot and returns the revision the watch is opened at; a failed load leaves what it has read so
     far.
     */
    method Start(got: Result<seq<KV>>, revision: nat) returns (r: Result<nat>)
      modifies this
      ensures r.Ok? <==> got.Ok? && forall i :: 0 <= i < |got.value| ==> Unmarshall(got.value[i].value).Some?
      ensures r.Ok? ==> Load(old(servers), got.value) == Some(servers) && r.value == revision + 1
      ensures servers == if got.Ok? then LoadedSoFar(old(servers), got.value) else old(servers)
    {
      if got.Err? {
        return Err("getting initial servers");
      }
      var reply := got.value;
      LoadCompletes(servers, reply);
      var i := 0;
      while i < |reply|
        invariant 0 <= i <= |reply|
        invariant forall j :: 0 <= j < i ==> Unmarshall(reply[j].value).Some?
        invariant LoadedSoFar(servers, reply[i..]) == LoadedSoFar(old(servers), reply)
      {
        match Unmarshall(reply[i].value) {
          case None => return Err("unmarshaling server info");
          case Some(info) => servers := servers[info.id := info];
        }
        i := i + 1;
      }
      return Ok(revision + 1);
    }

    method Resolve(serverID: string) returns (r: Result<ServerInfo>)
      ensures Cached(servers, serverID) == (if r.Ok? then Some(r.value) else None)
    {
      if serverID !in servers {
        return Err("server not found in the registry");
      }
      return Ok(servers[serverID]);
    }

    /** `num` is the drawn random number; `order` is the order in which the map is ranged over. */
    method SelectServerForConnection(num: nat, order: seq<string>) returns (r: Result<ServerInfo>)
      requires forall k :: k in servers <==> k in order
      requires |order| == |servers| && (servers != map[] ==> num < |servers|)
      ensures r.Ok? <==> servers != map[]
      ensures r.Ok? ==> r.value in servers.Values && r.value == servers[order[num]]
    {
      if |servers| == 0 {
        return Err("no servers in the registry");
      }
      var i := 0;
      while i < |order|
        invariant 0 <= i <= num
      {
        assert order[i] in order;
        if i == num {
          return Ok(servers[order[i]]);
        }
        i := i + 1;
      }
      assert false;
    }

    method WatchForUpdates(inputs: seq<WatchInput>)
      requires FromNamespace(inputs)
      modifies this
      ensures servers == WatchRun(old(servers), inputs)
      ensures forall n: nat :: Responses(inputs, n) ==>
        FromNamespace(inputs[..n]) && servers == CacheApplyAll(old(servers), EventsOf(inputs[..n]))
    {
      forall n: nat | Responses(inputs, n)
        ensures FromNamespace(inputs[..n])
        ensures WatchRun(servers, inputs) == CacheApplyAll(servers, EventsOf(inputs[..n]))
      {
        WatchAppliesAll(servers, inputs, n);
      }
      var i := 0;
      while i < |inputs|
        invariant 0 <= i <= |inputs|
        invariant WatchRun(servers, inputs[i..]) == WatchRun(old(servers), inputs)
      {
        if !inputs[i].Response? {
          return;
        }
        assert inputs[i] in inputs;
        ApplyResponse(inputs[i].events);
        i := i + 1;
      }
    }

    /** The inner loop: each event is applied under its own lock. */
    method ApplyResponse(events: seq<Event>)
      requires forall e :: e in events ==> InNamespace(e.key)
      modifies this
      ensures servers == CacheApplyAll(old(servers), events)
    {
      var i := 0;
      while i < |events|
        invariant 0 <= i <= |events|
        invariant CacheApplyAll(servers, events[i..]) == CacheApplyAll(old(servers), events)
      {
        var e := events[i];
        assert e in events;
        match e {
          case PutEvent(_, value) =>
            match Unmarshall(value) {
              case None =>
              case Some(info) => servers := servers[info.id := info];
            }
          case DeleteEvent(key) =>
            var serverID := key[|NAMESPACE|..];
            if serverID in servers {
              servers := servers - {serverID};
            }
        }
        i := i + 1;
      }
    }
  }
}
