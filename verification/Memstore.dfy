/**
 The Redis-backed store: collections encoded into one flat key space whose entries expire.
 */
module Memstore {
  import opened Common
  import opened Ids
  import opened Slices

  datatype ActiveUser = ActiveUser(id: ID, username: string, lastSeen: int)

  /** Stored bytes: the JSON of the two record types that the services write, or bytes that are no JSON object. */
  datatype Payload = ConnectionJSON(serverID: string) | UserJSON(user: ActiveUser) | OtherBytes(tag: int)

  const NIL_ID: ID := [0, 0, 0, 0, 0, 0, 0, 0, 0, 0, 0, 0, 0, 0, 0, 0]

  /** The server ID after decoding into a receiver: a field that is absent from the object keeps its value. */
  function DecodeInto(p: Payload, receiver: string): Result<string> {
    match p
    case ConnectionJSON(s) => Ok(s)
    case UserJSON(_) => Ok(receiver)
    case OtherBytes(_) => Err("unmarshalling conn info")
  }

  /** Decoding into a fresh receiver. */
  function DecodeConnection(p: Payload): Result<string> {
    DecodeInto(p, "")
  }

  function DecodeUser(p: Payload): Result<ActiveUser> {
    match p
    case ConnectionJSON(_) => Ok(ActiveUser(NIL_ID, "", 0))
    case UserJSON(u) => Ok(u)
    case OtherBytes(_) => Err("unmarshaling active user")
  }

  /** An entry is live before its expiry instant and gone from it on. */
  datatype Entry = Entry(payload: Payload, expiry: int)

  type Db = map<string, Entry>

  predicate Live(db: Db, key: string, now: int) {
    key in db && now < db[key].expiry
  }

  const SEPARATOR: char := ':'

  function CollectionPrefix(prefix: string, collection: string): string {
    prefix + [SEPARATOR] + collection + [SEPARATOR]
  }

  function CollectionKey(prefix: string, collection: string, key: string): string {
    CollectionPrefix(prefix, collection) + key
  }

  predicate SeparatorFree(s: string) {
    SEPARATOR !in s
  }

  // ---------- operations ----------

  function SetWithTTL(db: Db, prefix: string, collection: string, key: string, value: Payload, now: int, ttl: int): Db {
    db[CollectionKey(prefix, collection, key) := Entry(value, now + ttl)]
  }

  function Lookup(db: Db, prefix: string, collection: string, key: string): Option<Entry> {
    var k := CollectionKey(prefix, collection, key);
    if k in db then Some(db[k]) else None
  }

  function GetItem(db: Db, prefix: string, collection: string, key: string, now: int): Result<Payload> {
    var k := CollectionKey(prefix, collection, key);
    if Live(db, k, now) then Ok(db[k].payload) else Err("getting item")
  }

  // ---------- patterns of KEYS ----------

  predicate IsMeta(c: char) {
    c == '*' || c == '?' || c == '[' || c == '\\'
  }

  predicate Literal(s: string) {
    forall i :: 0 <= i < |s| ==> !IsMeta(s[i])
  }

  /** The members of a bracket up to its `]`: whether c is among them, and the rest of the pattern. */
  function Bracket(p: string, c: char, found: bool): (r: (bool, string))
    ensures |r.1| <= |p|
    decreases |p|
  {
    if p == "" then (found, p)
    else if p[0] == '\\' && 2 <= |p| then Bracket(p[2..], c, found || p[1] == c)
    else if p[0] == ']' then (found, p[1..])
    else if 3 <= |p| && p[1] == '-' then
      var lo, hi := if p[0] <= p[2] then p[0] else p[2], if p[0] <= p[2] then p[2] else p[0];
      Bracket(p[3..], c, found || lo <= c <= hi)
    else Bracket(p[1..], c, found || p[0] == c)
  }

  /** Redis glob matching. */
  predicate Glob(p: string, s: string)
    decreases |p| + |s|, |s|
  {
    if p == "" then s == ""
    else if p[0] == '*' then Glob(p[1..], s) || (s != "" && Glob(p, s[1..]))
    else if s == "" then false
    else if p[0] == '?' then Glob(p[1..], s[1..])
    else if p[0] == '[' then
      var negated := 2 <= |p| && p[1] == '^';
      var (found, rest) := Bracket(if negated then p[2..] else p[1..], s[0], false);
      found != negated && Glob(rest, s[1..])
    else if p[0] == '\\' && 2 <= |p| then p[1] == s[0] && Glob(p[2..], s[1..])
    else p[0] == s[0] && Glob(p[1..], s[1..])
  }

  /** The reply of KEYS: every live matching key once, in an order Redis chooses. */
  ghost predicate KeysReply(db: Db, pattern: string, now: int, keys: seq<string>) {
    && (forall k :: k in keys <==> Live(db, k, now) && Glob(pattern, k))
    && (forall i, j :: 0 <= i < j < |keys| ==> keys[i] != keys[j])
  }

  function Fetch(db: Db, now: int, key: string): Option<Payload> {
    if Live(db, key, now) then Some(db[key].payload) else None
  }

  /** The reply of MGET: one value per key, nil for a key that is absent or expired. */
  function MGet(db: Db, now: int, keys: seq<string>): (values: seq<Option<Payload>>)
    ensures |values| == |keys|
  {
    if keys == [] then []
    else MGet(db, now, keys[..|keys| - 1]) + [Fetch(db, now, keys[|keys| - 1])]
  }

  /** The keys of a listing that are still live at MGET time, in key order. */
  function Survivors(db: Db, now: int, keys: seq<string>): seq<string> {
    if keys == [] then []
    else
      var front := Survivors(db, now, keys[..|keys| - 1]);
      if Live(db, keys[|keys| - 1], now) then front + [keys[|keys| - 1]] else front
  }

  /** The client: its prefix, and the store it talks to. */
  class RedisClient {
    const prefix: string
    var db: Db

    constructor (prefix: string)
      ensures this.prefix == prefix && db == map[]
    {
      this.prefix, db := prefix, map[];
    }

    method GetCollectionItem(collection: string, key: string, now: int) returns (r: Result<Payload>)
      ensures r == GetItem(db, prefix, collection, key, now)
    {
      var k := CollectionKey(prefix, collection, key);
      if !Live(db, k, now) {
        return Err("getting item");
      }
      return Ok(db[k].payload);
    }

    method SetCollectionItemWithTTL(collection: string, key: string, value: Payload, ttl: int, now: int)
      modifies this
      ensures db == SetWithTTL(old(db), prefix, collection, key, value, now, ttl)
    {
      db := db[CollectionKey(prefix, collection, key) := Entry(value, now + ttl)];
    }
  }

  /**
   ListCollection. Its two calls are not atomic: `keys` is the reply of KEYS at an earlier moment,
   `db` and `now` are the store and the time at MGET.
   */
  method ListCollection(keys: seq<string>, db: Db, now: int) returns (r: seq<Payload>)
    ensures |r| == |Survivors(db, now, keys)|
    ensures forall i :: 0 <= i < |r| ==>
      Survivors(db, now, keys)[i] in db && r[i] == db[Survivors(db, now, keys)[i]].payload
  {
    if |keys| == 0 {
      return [];
    }
    var values := MGet(db, now, keys);
    r := FilterMap(values, (v: Option<Payload>) => v);
    ListedValues(keys, db, now);
  }

  // ---------- the key space ----------

  lemma CollectionKeyInjective(prefix: string, c: string, k: string, c': string, k': string)
    requires SeparatorFree(c) && SeparatorFree(c')
    requires CollectionKey(prefix, c, k) == CollectionKey(prefix, c', k')
    ensures c == c' && k == k'
  {
    var f, f' := CollectionKey(prefix, c, k), CollectionKey(prefix, c', k');
    var n := |prefix| + 1;
    assert forall i :: 0 <= i < |c| ==> f[n + i] == c[i];
    assert forall i :: 0 <= i < |c'| ==> f'[n + i] == c'[i];
    assert f[n + |c|] == SEPARATOR && f'[n + |c'|] == SEPARATOR;
    assert |c| == |c'|;
    assert k == f[n + |c| + 1..] && k' == f'[n + |c'| + 1..];
  }

  /** One name, closed by a separator, begins the other. */
  predicate Overlap(c: string, c': string) {
    c + [SEPARATOR] <= c' || c' + [SEPARATOR] <= c
  }

  /** A name with a separator can share keys with the collection named by what precedes the separator. */
  lemma SeparatorCollides(prefix: string)
    ensures CollectionKey(prefix, "a:b", "c") == CollectionKey(prefix, "a", "b:c")
  {
    assert CollectionKey(prefix, "a:b", "c") == prefix + ":a:b:c";
    assert CollectionKey(prefix, "a", "b:c") == prefix + ":a:b:c";
  }

  lemma OverlapCollides(prefix: string, c: string, c': string)
    requires c + [SEPARATOR] <= c'
    ensures CollectionKey(prefix, c, c'[|c| + 1..] + [SEPARATOR]) == CollectionKey(prefix, c', "")
  {
    assert c' == c + [SEPARATOR] + c'[|c| + 1..];
  }

  lemma CollisionOverlaps(prefix: string, c: string, k: string, c': string, k': string)
    requires CollectionKey(prefix, c, k) == CollectionKey(prefix, c', k') && |c| < |c'|
    ensures c + [SEPARATOR] <= c'
  {
    var f, n := CollectionKey(prefix, c, k), |prefix| + 1;
    assert f[n..n + |c| + 1] == c + [SEPARATOR];
    assert f[n..n + |c'|] == c';
    assert f[n..n + |c'|][..|c| + 1] == f[n..n + |c| + 1];
  }

  lemma SameLengthSameItem(prefix: string, c: string, k: string, c': string, k': string)
    requires CollectionKey(prefix, c, k) == CollectionKey(prefix, c', k') && |c| == |c'|
    ensures c == c' && k == k'
  {
    var f, n := CollectionKey(prefix, c, k), |prefix| + 1;
    assert f[n..n + |c|] == c && f[n..n + |c|] == c';
    assert f[n + |c| + 1..] == k && f[n + |c| + 1..] == k';
  }

  /** Two collections share a flat key exactly when one name, closed by a separator, begins the other. */
  lemma CollideExactly(prefix: string, c: string, c': string)
    requires c != c'
    ensures (exists k, k' :: CollectionKey(prefix, c, k) == CollectionKey(prefix, c', k')) <==> Overlap(c, c')
  {
    if k, k' :| CollectionKey(prefix, c, k) == CollectionKey(prefix, c', k') {
      if |c| < |c'| {
        CollisionOverlaps(prefix, c, k, c', k');
      } else if |c'| < |c| {
        CollisionOverlaps(prefix, c', k', c, k);
      } else {
        SameLengthSameItem(prefix, c, k, c', k');
      }
    }
    if c + [SEPARATOR] <= c' { OverlapCollides(prefix, c, c'); }
    if c' + [SEPARATOR] <= c { OverlapCollides(prefix, c', c); }
  }

  /** Flat keys identify their items. */
  ghost predicate InjectiveOn(prefix: string, names: set<string>) {
    forall c, k, c', k' :: c in names && c' in names && CollectionKey(prefix, c, k) == CollectionKey(prefix, c', k')
      ==> c == c' && k == k'
  }

  /** The encoding is injective on a set of collections exactly when no two of their names overlap. */
  lemma InjectiveExactly(prefix: string, names: set<string>)
    ensures InjectiveOn(prefix, names) <==> forall c, c' :: c in names && c' in names ==> !Overlap(c, c')
  {
    forall c, c' | c in names && c' in names && Overlap(c, c') ensures !InjectiveOn(prefix, names) {
      CollideExactly(prefix, c, c');
    }
    if forall c, c' :: c in names && c' in names ==> !Overlap(c, c') {
      forall c, k, c', k' | c in names && c' in names && CollectionKey(prefix, c, k) == CollectionKey(prefix, c', k')
        ensures c == c' && k == k'
      {
        if c != c' { CollideExactly(prefix, c, c'); }
        SameLengthSameItem(prefix, c, k, c', k');
      }
    }
  }

  /** A write to one collection item is seen there and nowhere else: the flat store refines independent maps. */
  lemma StoreRefinesCollections(db: Db, prefix: string, c: string, k: string, v: Payload, now: int, ttl: int,
                                c': string, k': string)
    requires SeparatorFree(c) && SeparatorFree(c')
    ensures Lookup(SetWithTTL(db, prefix, c, k, v, now, ttl), prefix, c', k')
            == if c == c' && k == k' then Some(Entry(v, now + ttl)) else Lookup(db, prefix, c', k')
  {
    if CollectionKey(prefix, c, k) == CollectionKey(prefix, c', k') {
      CollectionKeyInjective(prefix, c, k, c', k');
    }
  }

  lemma {:induction false} StarMatchesAll(s: string)
    ensures Glob("*", s)
    decreases |s|
  {
    if s == "" {
      assert Glob("", s);
    } else {
      StarMatchesAll(s[1..]);
    }
  }

  lemma {:induction false} LiteralPrefixGlob(lit: string, s: string)
    requires Literal(lit)
    ensures Glob(lit + "*", s) <==> lit <= s
    decreases |lit|
  {
    var p := lit + "*";
    if lit == "" {
      assert p == "*";
      StarMatchesAll(s);
    } else {
      assert p[0] == lit[0] && p[1..] == lit[1..] + "*";
      if s != "" {
        LiteralPrefixGlob(lit[1..], s[1..]);
        assert lit <= s <==> lit[0] == s[0] && lit[1..] <= s[1..] by {
          if lit[0] == s[0] && lit[1..] <= s[1..] {
            assert lit == [lit[0]] + lit[1..] && s == [s[0]] + s[1..];
            assert s[..|lit|] == lit;
          }
        }
      }
    }
  }

  /** The pattern that ListCollection asks for. */
  function CollectionPattern(prefix: string, collection: string): string {
    CollectionKey(prefix, collection, "*")
  }

  /** With no metacharacter in prefix or name, the pattern matches exactly the keys of the collection. */
  lemma PatternIsCollection(prefix: string, c: string, f: string)
    requires Literal(prefix) && Literal(c)
    ensures Glob(CollectionPattern(prefix, c), f) <==> exists k :: f == CollectionKey(prefix, c, k)
  {
    var lit := CollectionPrefix(prefix, c);
    LiteralPrefixGlob(lit, f);
    if lit <= f {
      assert f == CollectionKey(prefix, c, f[|lit|..]);
    }
  }

  /** A metacharacter in the prefix makes a listing reach into another prefix's keys. */
  lemma MetaPatternLeaks()
    ensures Glob(CollectionPattern("?", "c"), CollectionKey("x", "c", "k"))
    ensures forall k :: CollectionKey("x", "c", "k") != CollectionKey("?", "c", k)
  {
    assert CollectionPattern("?", "c") == "?:c:*" && CollectionKey("x", "c", "k") == "x:c:k";
    assert Glob("*", "k") by { StarMatchesAll("k"); }
    assert ":c:*"[1..] == "c:*" && "c:*"[1..] == ":*" && ":*"[1..] == "*";
    assert ":c:k"[1..] == "c:k" && "c:k"[1..] == ":k" && ":k"[1..] == "k";
    assert Glob(":*", ":k") && Glob("c:*", "c:k") && Glob(":c:*", ":c:k");
    assert "?:c:*"[1..] == ":c:*" && "x:c:k"[1..] == ":c:k";
    forall k ensures CollectionKey("x", "c", "k") != CollectionKey("?", "c", k) {
      assert CollectionKey("?", "c", k)[0] == '?';
    }
  }

  // ---------- which patterns are exact ----------

  /** A bracket consumes at least one character, and what it leaves ends as the pattern does. */
  lemma {:induction false} BracketLeavesSuffix(p: string, c: char, found: bool)
    requires p != ""
    ensures var rest := Bracket(p, c, found).1; |rest| < |p| && (rest != "" ==> rest[|rest| - 1] == p[|p| - 1])
    decreases |p|
  {
    if p[0] == '\\' && 2 <= |p| {
      if 2 < |p| { BracketLeavesSuffix(p[2..], c, found || p[1] == c); }
    } else if p[0] == ']' {
    } else if 3 <= |p| && p[1] == '-' {
      var lo, hi := if p[0] <= p[2] then p[0] else p[2], if p[0] <= p[2] then p[2] else p[0];
      if 3 < |p| { BracketLeavesSuffix(p[3..], c, found || lo <= c <= hi); }
    } else if 1 < |p| {
      BracketLeavesSuffix(p[1..], c, found || p[0] == c);
    }
  }

  predicate EndsInStar(p: string) {
    p != "" && p[|p| - 1] == '*'
  }

  /** The part of the pattern that is left to match after the first character of s. */
  function AfterFirst(p: string, s: string): (rest: string)
    requires p != "" && s != "" && p[0] != '*'
    ensures |rest| < |p|
  {
    if p[0] == '[' then Bracket(if 2 <= |p| && p[1] == '^' then p[2..] else p[1..], s[0], false).1
    else if p[0] == '\\' && 2 <= |p| then p[2..]
    else p[1..]
  }

  lemma MatchContinues(p: string, s: string)
    requires EndsInStar(p) && p[0] != '*' && Glob(p, s)
    ensures s != "" && Glob(AfterFirst(p, s), s[1..])
    ensures AfterFirst(p, s) == "" || EndsInStar(AfterFirst(p, s))
    ensures p[0] == '\\' || p[0] == '[' ==> |AfterFirst(p, s)| <= |p| - 2
    ensures forall t :: Glob(AfterFirst(p, s), t) ==> Glob(p, [s[0]] + t)
  {
    if p[0] == '[' {
      var members := if 2 <= |p| && p[1] == '^' then p[2..] else p[1..];
      BracketLeavesSuffix(members, s[0], false);
    }
    forall t | Glob(AfterFirst(p, s), t) ensures Glob(p, [s[0]] + t) {
      assert ([s[0]] + t)[1..] == t;
    }
  }

  /** A pattern that ends in a star and matches at all matches a text shorter than itself. */
  lemma {:induction false} ShortMatch(p: string, s: string) returns (w: string)
    requires EndsInStar(p) && Glob(p, s)
    ensures |w| < |p| && Glob(p, w)
    decreases |p|, |s|
  {
    if p[0] == '*' {
      if |p| == 1 {
        w := "";
      } else {
        var t := AfterStar(p, s);
        w := ShortMatch(p[1..], t);
      }
    } else {
      MatchContinues(p, s);
      var rest := AfterFirst(p, s);
      var t := "";
      if rest != "" { t := ShortMatch(rest, s[1..]); }
      w := [s[0]] + t;
    }
  }

  lemma {:induction false} AfterStar(p: string, s: string) returns (t: string)
    requires p != "" && p[0] == '*' && Glob(p, s)
    ensures Glob(p[1..], t)
    decreases |s|
  {
    if Glob(p[1..], s) {
      t := s;
    } else {
      t := AfterStar(p, s[1..]);
    }
  }

  /** At a metacharacter: a text on which the pattern and the test for the prefix differ. */
  lemma MetaDiffers(q: string) returns (f: string)
    requires q != "" && IsMeta(q[0])
    ensures Glob(q + "*", f) != (q <= f)
  {
    var p := q + "*";
    f := q;
    if Glob(p, q) {
      if q[0] == '*' {
        var t := AfterStar(p, q);
        f := ShortMatch(p[1..], t);
      } else {
        MatchContinues(p, q);
        if q[0] == '?' {
          f := ['a'] + q[1..];
          assert f[1..] == q[1..];
        } else {
          f := ShorterByTwo(q);
        }
      }
    }
  }

  /** An escape or a bracket takes two characters of the pattern for one of the text. */
  lemma ShorterByTwo(q: string) returns (f: string)
    requires q != "" && (q[0] == '\\' || q[0] == '[') && Glob(q + "*", q)
    ensures |f| < |q| && Glob(q + "*", f)
  {
    var p := q + "*";
    MatchContinues(p, q);
    if |q| == 1 { NoSelfMatch(q[0]); }
    var w := ShortMatch(AfterFirst(p, q), q[1..]);
    f := [q[0]] + w;
  }

  lemma NoSelfMatch(c: char)
    requires c == '\\' || c == '['
    ensures !Glob([c] + "*", [c])
  {
    assert ([c] + "*")[1..] == "*" && "*"[1..] == "";
    assert Bracket("*", c, false) == (false, "");
  }

  lemma {:induction false} NonLiteralDiffers(q: string) returns (f: string)
    requires !Literal(q)
    ensures Glob(q + "*", f) != (q <= f)
    decreases |q|
  {
    if IsMeta(q[0]) {
      f := MetaDiffers(q);
    } else {
      assert !Literal(q[1..]) by {
        var i :| 0 <= i < |q| && IsMeta(q[i]);
        assert q[1..][i - 1] == q[i];
      }
      var g := NonLiteralDiffers(q[1..]);
      f := [q[0]] + g;
      assert (q + "*")[1..] == q[1..] + "*" && f[1..] == g;
      assert q <= f <==> q[1..] <= g by { assert q == [q[0]] + q[1..]; PrefixTail(q, f); }
    }
  }

  lemma PrefixTail(q: string, f: string)
    requires q != "" && f != "" && q[0] == f[0]
    ensures q <= f <==> q[1..] <= f[1..]
  {
    if q[1..] <= f[1..] {
      assert q == [q[0]] + q[1..] && f == [f[0]] + f[1..];
      assert f[..|q|] == q;
    }
  }

  /**
   The listing pattern matches exactly the keys of the collection if and only if prefix and name hold no
   metacharacter.
   */
  lemma PatternIsExact(prefix: string, c: string)
    ensures (forall f :: Glob(CollectionPattern(prefix, c), f) <==> exists k :: f == CollectionKey(prefix, c, k))
            <==> Literal(prefix) && Literal(c)
  {
    var q := CollectionPrefix(prefix, c);
    assert Literal(q) <==> Literal(prefix) && Literal(c) by { LiteralParts(prefix, c); }
    if Literal(q) {
      forall f ensures Glob(CollectionPattern(prefix, c), f) <==> exists k :: f == CollectionKey(prefix, c, k) {
        PatternIsCollection(prefix, c, f);
      }
    } else {
      var f := NonLiteralDiffers(q);
      assert (exists k :: f == CollectionKey(prefix, c, k)) <==> q <= f by {
        if q <= f { assert f == CollectionKey(prefix, c, f[|q|..]); }
      }
      assert CollectionPattern(prefix, c) == q + "*";
    }
  }

  lemma LiteralParts(prefix: string, c: string)
    ensures Literal(CollectionPrefix(prefix, c)) <==> Literal(prefix) && Literal(c)
  {
    var q := CollectionPrefix(prefix, c);
    assert forall i :: 0 <= i < |prefix| ==> q[i] == prefix[i];
    assert forall i :: 0 <= i < |c| ==> q[|prefix| + 1 + i] == c[i];
  }

  // ---------- listings ----------

  lemma {:induction false} ListedValues(keys: seq<string>, db: Db, now: int)
    ensures var r := FilterMapped(MGet(db, now, keys), (v: Option<Payload>) => v);
            var live := Survivors(db, now, keys);
            |r| == |live| && forall i :: 0 <= i < |r| ==> live[i] in db && r[i] == db[live[i]].payload
  {
    if keys != [] {
      var n := |keys| - 1;
      ListedValues(keys[..n], db, now);
      assert MGet(db, now, keys)[..n] == MGet(db, now, keys[..n]);
    }
  }

  lemma {:induction false} SurvivorsExact(keys: seq<string>, db: Db, now: int)
    requires forall i, j :: 0 <= i < j < |keys| ==> keys[i] != keys[j]
    ensures forall k :: k in Survivors(db, now, keys) <==> k in keys && Live(db, k, now)
    ensures forall i, j :: 0 <= i < j < |Survivors(db, now, keys)| ==>
      Survivors(db, now, keys)[i] != Survivors(db, now, keys)[j]
    ensures forall i, j :: 0 <= i < j < |keys| && Live(db, keys[i], now) && Live(db, keys[j], now)
              ==> exists a, b :: 0 <= a < b < |Survivors(db, now, keys)|
                    && Survivors(db, now, keys)[a] == keys[i] && Survivors(db, now, keys)[b] == keys[j]
  {
    if keys != [] {
      var n := |keys| - 1;
      var front, live := Survivors(db, now, keys[..n]), Survivors(db, now, keys);
      SurvivorsExact(keys[..n], db, now);
      assert forall k :: k in keys <==> k in keys[..n] || k == keys[n];
      assert front <= live;
      forall i, j | 0 <= i < j < |keys| && Live(db, keys[i], now) && Live(db, keys[j], now)
        ensures exists a, b :: 0 <= a < b < |live| && live[a] == keys[i] && live[b] == keys[j]
      {
        if j < n {
          assert keys[..n][i] == keys[i] && keys[..n][j] == keys[j];
          var a, b :| 0 <= a < b < |front| && front[a] == keys[i] && front[b] == keys[j];
          assert live[a] == keys[i] && live[b] == keys[j];
        } else {
          assert keys[..n][i] == keys[i];
          var a :| 0 <= a < |front| && front[a] == keys[i];
          assert live[a] == keys[i] && live[|front|] == keys[j];
        }
      }
    }
  }

  /**
   A listing against a store that changes between its two calls: an item of the collection is
   listed exactly when it was live at KEYS and is live at MGET, and nothing else is.
   */
  lemma ListingUnderConcurrency(prefix: string, c: string, dbKeys: Db, tKeys: int, keys: seq<string>, db: Db, now: int)
    requires Literal(prefix) && Literal(c) && KeysReply(dbKeys, CollectionPattern(prefix, c), tKeys, keys)
    ensures forall k :: CollectionKey(prefix, c, k) in Survivors(db, now, keys)
              <==> Live(dbKeys, CollectionKey(prefix, c, k), tKeys) && Live(db, CollectionKey(prefix, c, k), now)
    ensures forall f :: f in Survivors(db, now, keys) ==> exists k :: f == CollectionKey(prefix, c, k)
    ensures forall i, j :: 0 <= i < j < |Survivors(db, now, keys)| ==>
      Survivors(db, now, keys)[i] != Survivors(db, now, keys)[j]
  {
    SurvivorsExact(keys, db, now);
    forall k ensures Glob(CollectionPattern(prefix, c), CollectionKey(prefix, c, k)) {
      PatternIsCollection(prefix, c, CollectionKey(prefix, c, k));
    }
    forall f | f in Survivors(db, now, keys) ensures exists k :: f == CollectionKey(prefix, c, k) {
      PatternIsCollection(prefix, c, f);
    }
  }
}
