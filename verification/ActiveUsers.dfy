/**
 The tracker of active users: a heartbeat writes an entry that lives for 30 seconds; the listing reads what is left.
 */
module ActiveUsers {
  import opened Common
  import opened Ids
  import opened Slices
  import opened Memstore

  const ACTIVE_USER_TTL: int := 30 * SECOND
  const ACTIVE_USERS: string := "active_users"

  /** One committed write to the store: a heartbeat, or a write to another collection. */
  datatype Write =
    | Beat(user: ActiveUser, at: int)
    | Other(collection: string, key: string, value: Payload, at: int, ttl: int)

  predicate Foreign(w: Write) {
    w.Other? ==> SeparatorFree(w.collection) && w.collection != ACTIVE_USERS
  }

  function WriteTo(db: Db, prefix: string, w: Write): Db {
    match w
    case Beat(u, at) => SetWithTTL(db, prefix, ACTIVE_USERS, String(u.id), UserJSON(u), at, ACTIVE_USER_TTL)
    case Other(c, k, v, at, ttl) => SetWithTTL(db, prefix, c, k, v, at, ttl)
  }

  /** The store after a history of writes. */
  function After(prefix: string, ws: seq<Write>): Db {
    if ws == [] then map[] else WriteTo(After(prefix, ws[..|ws| - 1]), prefix, ws[|ws| - 1])
  }

  /** The last heartbeat of a user in a history. */
  function LastBeat(ws: seq<Write>, id: ID): (r: Option<Write>)
    ensures r.Some? ==> r.value.Beat? && r.value.user.id == id
  {
    if ws == [] then None
    else
      var w := ws[|ws| - 1];
      if w.Beat? && w.user.id == id then Some(w) else LastBeat(ws[..|ws| - 1], id)
  }

  class Tracker {
    const store: RedisClient

    constructor (store: RedisClient)
      ensures this.store == store
    {
      this.store := store;
    }

    /** `lastSeen` is the clock at the call, `now` the instant at which the store commits. */
    method HeartBeat(id: ID, username: string, lastSeen: int, now: int)
      modifies store
      ensures store.db == WriteTo(old(store.db), store.prefix, Beat(ActiveUser(id, username, lastSeen), now))
    {
      var usr := ActiveUser(id, username, lastSeen);
      store.SetCollectionItemWithTTL(ACTIVE_USERS, String(usr.id), UserJSON(usr), ACTIVE_USER_TTL, now);
    }
  }

  /** `r` is the decoded listing of the surviving keys, in key order. */
  ghost predicate DecodedListing(r: seq<ActiveUser>, db: Db, now: int, keys: seq<string>) {
    var live := Survivors(db, now, keys);
    |r| == |live| && forall i :: 0 <= i < |r| ==> live[i] in db && Ok(r[i]) == DecodeUser(db[live[i]].payload)
  }

  /** The answer of ListActiveUsers: the decoded listing, or an error because some entry does not decode. */
  ghost predicate Answers(r: Result<seq<ActiveUser>>, db: Db, now: int, keys: seq<string>) {
    match r
    case Ok(users) => DecodedListing(users, db, now, keys)
    case Err(_) => exists k :: k in Survivors(db, now, keys) && k in db && DecodeUser(db[k].payload).Err?
  }

  method ListActiveUsers(keys: seq<string>, db: Db, now: int) returns (r: Result<seq<ActiveUser>>)
    ensures Answers(r, db, now, keys)
  {
    var users := ListCollection(keys, db, now);
    r := MapE(users, DecodeUser);
    if r.Err? {
      var i :| 0 <= i < |users| && DecodeUser(users[i]).Err?;
      assert Survivors(db, now, keys)[i] in Survivors(db, now, keys);
    }
  }

  /** The entry under a key of the collection is the one of the last heartbeat of the user that the key names. */
  ghost predicate EntryIsLastBeat(prefix: string, ws: seq<Write>, id: ID) {
    Lookup(After(prefix, ws), prefix, ACTIVE_USERS, String(id))
    == match LastBeat(ws, id) case None => None case Some(b) => Some(Entry(UserJSON(b.user), b.at + ACTIVE_USER_TTL))
  }

  /** What one more write does to an item of the collection. */
  lemma WriteSeen(db: Db, prefix: string, w: Write, k: string)
    requires Foreign(w)
    ensures Lookup(WriteTo(db, prefix, w), prefix, ACTIVE_USERS, k)
            == if w.Beat? && String(w.user.id) == k then Some(Entry(UserJSON(w.user), w.at + ACTIVE_USER_TTL))
               else Lookup(db, prefix, ACTIVE_USERS, k)
  {
    match w
    case Beat(u, at) =>
      StoreRefinesCollections(db, prefix, ACTIVE_USERS, String(u.id), UserJSON(u), at, ACTIVE_USER_TTL,
                              ACTIVE_USERS, k);
    case Other(c, key, v, at, ttl) =>
      StoreRefinesCollections(db, prefix, c, key, v, at, ttl, ACTIVE_USERS, k);
  }

  lemma {:induction false} EntryOfLastBeat(prefix: string, ws: seq<Write>, id: ID)
    requires forall w :: w in ws ==> Foreign(w)
    ensures EntryIsLastBeat(prefix, ws, id)
  {
    if ws != [] {
      var n := |ws| - 1;
      var w := ws[n];
      EntryOfLastBeat(prefix, ws[..n], id);
      WriteSeen(After(prefix, ws[..n]), prefix, w, String(id));
      if w.Beat? && String(w.user.id) == String(id) { StringInjective(id, w.user.id); }
    }
  }

  /** Every key of the collection is the text form of an ID. */
  lemma {:induction false} KeysAreIDs(prefix: string, ws: seq<Write>, k: string)
    requires forall w :: w in ws ==> Foreign(w)
    requires Lookup(After(prefix, ws), prefix, ACTIVE_USERS, k).Some?
    ensures exists id :: k == String(id)
  {
    var n := |ws| - 1;
    WriteSeen(After(prefix, ws[..n]), prefix, ws[n], k);
    if ws[n].Beat? && String(ws[n].user.id) == k {
    } else {
      KeysAreIDs(prefix, ws[..n], k);
    }
  }

  /** Every listed entry decodes: it was written by a heartbeat. */
  lemma ListingDecodes(prefix: string, ws: seq<Write>, now: int, keys: seq<string>)
    requires Literal(prefix) && forall w :: w in ws ==> Foreign(w)
    requires KeysReply(After(prefix, ws), CollectionPattern(prefix, ACTIVE_USERS), now, keys)
    ensures forall f :: f in Survivors(After(prefix, ws), now, keys)
              ==> f in After(prefix, ws) && DecodeUser(After(prefix, ws)[f].payload).Ok?
  {
    var db := After(prefix, ws);
    ListingUnderConcurrency(prefix, ACTIVE_USERS, db, now, keys, db, now);
    SurvivorsExact(keys, db, now);
    forall f | f in Survivors(db, now, keys) ensures f in db && DecodeUser(db[f].payload).Ok? {
      var k :| f == CollectionKey(prefix, ACTIVE_USERS, k);
      KeysAreIDs(prefix, ws, k);
      var id :| k == String(id);
      EntryOfLastBeat(prefix, ws, id);
    }
  }

  /**
   With no step between KEYS and MGET, ListActiveUsers never fails, and it answers exactly the users whose last
   heartbeat is less than 30 seconds old, each once and as that heartbeat recorded them.
   */
  lemma ActiveUsersMatchHistory(prefix: string, ws: seq<Write>, now: int, keys: seq<string>, r: Result<seq<ActiveUser>>)
    requires Literal(prefix) && forall w :: w in ws ==> Foreign(w)
    requires KeysReply(After(prefix, ws), CollectionPattern(prefix, ACTIVE_USERS), now, keys)
    requires Answers(r, After(prefix, ws), now, keys)
    ensures r.Ok?
    ensures forall u: ActiveUser ::
      u in r.value <==> exists at :: LastBeat(ws, u.id) == Some(Beat(u, at)) && now < at + ACTIVE_USER_TTL
    ensures forall i, j :: 0 <= i < j < |r.value| ==> r.value[i].id != r.value[j].id
  {
    ListingDecodes(prefix, ws, now, keys);
    ListedUsers(prefix, ws, now, keys, r.value);
  }

  lemma ListedUsers(prefix: string, ws: seq<Write>, now: int, keys: seq<string>, r: seq<ActiveUser>)
    requires Literal(prefix) && forall w :: w in ws ==> Foreign(w)
    requires KeysReply(After(prefix, ws), CollectionPattern(prefix, ACTIVE_USERS), now, keys)
    requires DecodedListing(r, After(prefix, ws), now, keys)
    ensures forall u: ActiveUser ::
      u in r <==> exists at :: LastBeat(ws, u.id) == Some(Beat(u, at)) && now < at + ACTIVE_USER_TTL
    ensures forall i, j :: 0 <= i < j < |r| ==> r[i].id != r[j].id
  {
    var db, live := After(prefix, ws), Survivors(After(prefix, ws), now, keys);
    ListingUnderConcurrency(prefix, ACTIVE_USERS, db, now, keys, db, now);
    SurvivorsExact(keys, db, now);
    forall i | 0 <= i < |r|
      ensures live[i] == CollectionKey(prefix, ACTIVE_USERS, String(r[i].id))
      ensures exists at :: LastBeat(ws, r[i].id) == Some(Beat(r[i], at)) && now < at + ACTIVE_USER_TTL
    {
      assert live[i] in live;
      ListedUser(prefix, ws, now, live[i], r[i]);
    }
    forall u: ActiveUser, at | LastBeat(ws, u.id) == Some(Beat(u, at)) && now < at + ACTIVE_USER_TTL ensures u in r {
      EntryOfLastBeat(prefix, ws, u.id);
      FoundInListing(CollectionKey(prefix, ACTIVE_USERS, String(u.id)), u, r, db, now, keys);
    }
  }

  lemma FoundInListing(f: string, u: ActiveUser, r: seq<ActiveUser>, db: Db, now: int, keys: seq<string>)
    requires DecodedListing(r, db, now, keys) && f in Survivors(db, now, keys) && f in db
    requires db[f].payload == UserJSON(u)
    ensures u in r
  {
    var i :| 0 <= i < |r| && Survivors(db, now, keys)[i] == f;
    assert r[i] == u;
  }

  /** One listed entry and the heartbeat behind it. */
  lemma ListedUser(prefix: string, ws: seq<Write>, now: int, f: string, u: ActiveUser)
    requires forall w :: w in ws ==> Foreign(w)
    requires exists k :: f == CollectionKey(prefix, ACTIVE_USERS, k)
    requires Live(After(prefix, ws), f, now) && DecodeUser(After(prefix, ws)[f].payload) == Ok(u)
    ensures f == CollectionKey(prefix, ACTIVE_USERS, String(u.id))
    ensures exists at :: LastBeat(ws, u.id) == Some(Beat(u, at)) && now < at + ACTIVE_USER_TTL
  {
    var k :| f == CollectionKey(prefix, ACTIVE_USERS, k);
    KeysAreIDs(prefix, ws, k);
    var id :| k == String(id);
    EntryOfLastBeat(prefix, ws, id);
    var b := LastBeat(ws, id).value;
    assert b == Beat(u, b.at);
  }
}
